/** The ticket-key correlator of jira_agent/main.py: the regular expression
    `\b(KEY-\d+)\b`, searched case-insensitively, whose first group is then
    upper-cased. `KEY` is the project key, escaped, so it is matched literally.
    `\w`, `\d` and case-insensitive matching are taken over ASCII. */
module Correlator {
  import opened Strings
  import opened Wrappers

  /** `\w`: a letter, a digit or `_`. */
  predicate IsWord(c: char) {
    IsAsciiLetter(c) || IsDigit(c) || c == '_'
  }

  /** `\b` at position `i`: a word character on exactly one side. */
  predicate Boundary(s: string, i: nat)
    requires i <= |s|
  {
    (i > 0 && IsWord(s[i - 1])) != (i < |s| && IsWord(s[i]))
  }

  /** Where the run of digits that starts at `j` ends. */
  function DigitsEnd(s: string, j: nat): (e: nat)
    requires j <= |s|
    ensures j <= e <= |s|
    ensures forall k :: j <= k < e ==> IsDigit(s[k])
    ensures e == |s| || !IsDigit(s[e])
    decreases |s| - j
  {
    if j < |s| && IsDigit(s[j]) then DigitsEnd(s, j + 1) else j
  }

  /** The two strings agree up to ASCII case. */
  predicate SameIgnoringCase(a: string, b: string) {
    |a| == |b| && forall k :: 0 <= k < |a| ==> LowerChar(a[k]) == LowerChar(b[k])
  }

  /** The pattern matches from position `i`: a boundary, the key in any case, `-`,
      the longest run of at least one digit, and a boundary after it. A shorter run
      of digits never helps, because a boundary cannot fall between two digits
      (see `NoBoundaryInsideDigits`), so backtracking finds nothing more. */
  predicate MatchesAt(s: string, key: string, i: nat) {
    var d := i + |key| + 1;
    && d < |s|
    && SameIgnoringCase(s[i..i + |key|], key)
    && s[d - 1] == '-'
    && IsDigit(s[d])
    && Boundary(s, i)
    && Boundary(s, DigitsEnd(s, d))
  }

  /** The text of the match that starts at `i` (group 1). */
  function MatchedText(s: string, key: string, i: nat): string
    requires MatchesAt(s, key, i)
  {
    s[i..DigitsEnd(s, i + |key| + 1)]
  }

  /** `i` is where the search stops: the leftmost position the pattern matches at. */
  predicate Leftmost(s: string, key: string, i: nat) {
    MatchesAt(s, key, i) && forall q :: 0 <= q < i ==> !MatchesAt(s, key, q)
  }

  /** Backtracking inside the run of digits cannot reach a boundary. */
  lemma NoBoundaryInsideDigits(s: string, d: nat, e: nat)
    requires d <= |s| && d < e < DigitsEnd(s, d)
    ensures !Boundary(s, e)
  {
    assert IsDigit(s[e - 1]) && IsDigit(s[e]);
  }

  /** The leftmost match at or after `from`, if any. */
  function FirstMatch(s: string, key: string, from: nat): (r: Option<nat>)
    requires from <= |s|
    ensures r.Some? ==> from <= r.value < |s| && MatchesAt(s, key, r.value)
    ensures r.Some? ==> forall q :: from <= q < r.value ==> !MatchesAt(s, key, q)
    ensures r.None? ==> forall q :: from <= q ==> !MatchesAt(s, key, q)
    decreases |s| - from
  {
    if from == |s| then None
    else if MatchesAt(s, key, from) then Some(from)
    else FirstMatch(s, key, from + 1)
  }

  /** The text of the leftmost match at or after `from`, if any: the search
      itself, which stops at the first position the pattern matches at. */
  function FirstText(s: string, key: string, from: nat): Option<string>
    requires from <= |s|
    decreases |s| - from
  {
    if from == |s| then None
    else if MatchesAt(s, key, from) then Some(MatchedText(s, key, from))
    else FirstText(s, key, from + 1)
  }

  /** The search answers with the text of the match `FirstMatch` locates. */
  lemma {:induction false} FirstTextAt(s: string, key: string, from: nat)
    requires from <= |s|
    ensures var r := FirstMatch(s, key, from);
      FirstText(s, key, from) == if r.Some? then Some(MatchedText(s, key, r.value)) else None
    decreases |s| - from
  {
    if from < |s| && !MatchesAt(s, key, from) {
      FirstTextAt(s, key, from + 1);
    }
  }

  /** `re.search(rf"\b({re.escape(key)}-\d+)\b", text, re.IGNORECASE)`, then
      `match.group(1).upper()`; None when nothing matches. */
  function Correlate(text: string, key: string): Option<string> {
    match FirstText(text, key, 0)
    case None => None
    case Some(m) => Some(Upper(m))
  }

  /** The correlator finds nothing exactly when the pattern matches nowhere, and
      otherwise answers with the upper-cased text of the leftmost match. */
  lemma CorrelateLeftmost(text: string, key: string)
    ensures Correlate(text, key).None? <==> forall q :: !MatchesAt(text, key, q)
    ensures Correlate(text, key).Some? ==>
      exists p :: Leftmost(text, key, p) && Correlate(text, key).value == Upper(MatchedText(text, key, p))
  {
    FirstTextAt(text, key, 0);
  }

  /** The ticket a closed PR refers to: the correlator run over
      `f"{title} {branch}"`, as both `list-prs` and `watch` do. */
  function TicketOf(title: string, branch: string, key: string): Option<string> {
    Correlate(title + " " + branch, key)
  }

  /** The ticket of a PR is that of the leftmost match in `f"{title} {branch}"`,
      and there is none exactly when the pattern matches nowhere in that text. */
  lemma TicketOfLeftmost(title: string, branch: string, key: string)
    ensures var s := title + " " + branch;
      && (TicketOf(title, branch, key).None? <==> forall q :: !MatchesAt(s, key, q))
      && (TicketOf(title, branch, key).Some? ==>
            exists p :: Leftmost(s, key, p) && TicketOf(title, branch, key).value == Upper(MatchedText(s, key, p)))
  {
    CorrelateLeftmost(title + " " + branch, key);
  }

  lemma UpperOfSameCase(a: char, b: char)
    requires LowerChar(a) == LowerChar(b)
    ensures UpperChar(a) == UpperChar(b)
  {
  }

  /** A found ticket is the upper-cased key, `-`, and one or more digits. */
  lemma {:induction false} CorrelateShape(text: string, key: string)
    requires Correlate(text, key).Some?
    ensures var t := Correlate(text, key).value;
      && |t| > |key| + 1
      && t[..|key|] == Upper(key)
      && t[|key|] == '-'
      && forall k :: |key| < k < |t| ==> IsDigit(t[k])
  {
    FirstTextAt(text, key, 0);
    var p := FirstMatch(text, key, 0).value;
    var m := MatchedText(text, key, p);
    var t := Upper(m);
    forall k | 0 <= k < |key|
      ensures t[k] == Upper(key)[k]
    {
      assert text[p..p + |key|][k] == m[k];
      UpperOfSameCase(m[k], key[k]);
    }
  }

  lemma LowerIsSpace(c: char)
    requires LowerChar(c) == ' '
    ensures c == ' '
  {
  }

  /** A match that starts inside the title never runs into the separating space,
      so it is a match of the title alone, and the other way round. */
  lemma {:induction false} MatchInTitle(title: string, branch: string, key: string, q: nat)
    requires ' ' !in key && q < |title|
    ensures MatchesAt(title + " " + branch, key, q) <==> MatchesAt(title, key, q)
  {
    var s := title + " " + branch;
    var d := q + |key| + 1;
    assert forall k :: 0 <= k < |title| ==> s[k] == title[k];
    assert s[|title|] == ' ';
    if MatchesAt(s, key, q) {
      if q + |key| > |title| {
        var k := |title| - q;
        assert s[q..q + |key|][k] == ' ';
        LowerIsSpace(key[k]);
        assert false;
      }
      assert d < |title|;
      assert s[q..q + |key|] == title[q..q + |key|];
      DigitsAgree(title, branch, d);
    }
    if MatchesAt(title, key, q) {
      assert s[q..q + |key|] == title[q..q + |key|];
      DigitsAgree(title, branch, d);
    }
  }

  /** A run of digits inside the title stops at the space at the latest. */
  lemma {:induction false} DigitsAgree(title: string, branch: string, j: nat)
    requires j <= |title|
    ensures DigitsEnd(title + " " + branch, j) == DigitsEnd(title, j)
    decreases |title| - j
  {
    var s := title + " " + branch;
    if j < |title| {
      assert s[j] == title[j];
      if IsDigit(title[j]) {
        DigitsAgree(title, branch, j + 1);
      }
    } else {
      assert s[j] == ' ';
    }
  }

  /** The leftmost match of the title stays leftmost once the branch is appended. */
  lemma TitleLeftmost(title: string, branch: string, key: string, p: nat)
    requires ' ' !in key && Leftmost(title, key, p)
    ensures Leftmost(title + " " + branch, key, p)
  {
    MatchInTitle(title, branch, key, p);
    forall q | 0 <= q < p
      ensures !MatchesAt(title + " " + branch, key, q)
    {
      MatchInTitle(title, branch, key, q);
    }
  }

  /** A ticket key in the PR title wins over one in the branch name. */
  lemma TitleFirst(title: string, branch: string, key: string)
    requires ' ' !in key
    requires Correlate(title, key).Some?
    ensures TicketOf(title, branch, key) == Correlate(title, key)
  {
    var s := title + " " + branch;
    FirstTextAt(title, key, 0);
    FirstTextAt(s, key, 0);
    var p := FirstMatch(title, key, 0).value;
    TitleLeftmost(title, branch, key, p);
    FirstLeftmost(s, key, p);
    TitleText(title, branch, key, p);
  }

  /** A match inside the title reads the same text once the branch is appended. */
  lemma TitleText(title: string, branch: string, key: string, p: nat)
    requires ' ' !in key && MatchesAt(title, key, p) && MatchesAt(title + " " + branch, key, p)
    ensures MatchedText(title + " " + branch, key, p) == MatchedText(title, key, p)
  {
    var s := title + " " + branch;
    var d := p + |key| + 1;
    DigitsAgree(title, branch, d);
    var e := DigitsEnd(title, d);
    assert forall k :: 0 <= k < |title| ==> s[k] == title[k];
    assert s[p..e] == title[p..e];
  }

  /** The search stops at the leftmost match. */
  lemma FirstLeftmost(s: string, key: string, p: nat)
    requires Leftmost(s, key, p)
    ensures FirstMatch(s, key, 0) == Some(p)
  {
    var r := FirstMatch(s, key, 0);
    assert r.Some?;
    assert !(r.value < p);
    assert !(p < r.value);
  }
}

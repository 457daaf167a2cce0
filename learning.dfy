/** The learning records of jira_agent/learning/models.py: the categories and
    confidence levels, the failure and fix records, the deduplication id of a
    learning and the learning made from a verified fix. SHA-256 is not
    modelled: the digest function is a parameter, and the id is the first
    twelve characters of its hexadecimal digest. Timestamps are opaque
    numbers. */
module Learning {
  import opened Strings
  import opened Wrappers

  /** `LearningCategory`. */
  datatype LearningCategory = CiFailure | CodePattern | ErrorResolution
  {
    /** The enum's string value. */
    function Value(): string {
      match this
      case CiFailure => "ci-failure"
      case CodePattern => "code-pattern"
      case ErrorResolution => "error-resolution"
    }
  }

  /** `LearningConfidence`. */
  datatype LearningConfidence = Low | Medium | High
  {
    function Value(): string {
      match this
      case Low => "low"
      case Medium => "medium"
      case High => "high"
    }
  }

  /** A timestamp, taken as an opaque value. */
  type Timestamp = int

  /** `FailureRecord`, without its free-form `context`. */
  datatype FailureRecord = FailureRecord(
    failureType: string,
    errorMessage: string,
    command: Option<string> := None,
    filesInvolved: seq<string> := [],
    iteration: int,
    timestamp: Timestamp)

  /** `FixAttempt`. */
  datatype FixAttempt = FixAttempt(
    failureType: string,
    solutionDescription: string,
    filesModified: seq<string> := [],
    codeChanges: Option<string> := None,
    iteration: int,
    timestamp: Timestamp,
    verified: bool := false)

  /** `Learning`, with the defaults of its optional fields. */
  datatype Learning = Learning(
    id: string,
    timestamp: Timestamp,
    ticket: string,
    category: LearningCategory,
    subcategory: string,
    repo: string,
    title: string,
    problem: string,
    errorOutput: Option<string> := None,
    solution: string,
    filesAffected: seq<string> := [],
    codeDiff: Option<string> := None,
    applicability: string,
    confidence: LearningConfidence := Medium)

  /** A confidence left out is medium, and the other optional fields are empty. */
  lemma LearningDefaults(id: string, now: Timestamp, ticket: string, category: LearningCategory,
                         subcategory: string, repo: string, title: string, problem: string,
                         solution: string, applicability: string)
    ensures var l := Learning(id := id, timestamp := now, ticket := ticket, category := category,
                              subcategory := subcategory, repo := repo, title := title, problem := problem,
                              solution := solution, applicability := applicability);
      && l.confidence == Medium && l.errorOutput.None? && l.filesAffected == [] && l.codeDiff.None?
  {
  }

  // ---------------------------------------------------------------------------
  // Categories

  const CiTypes: set<string> := {"pre-commit", "dbt-compile", "pytest", "mypy", "ruff", "black", "isort"}

  const PatternTypes: set<string> := {"dbt-model", "sql-pattern", "python-pattern"}

  /** `_categorize_failure`: the lower-cased failure type decides. */
  function Categorize(failureType: string): (c: LearningCategory)
    ensures c == CiFailure <==> Lower(failureType) in CiTypes
    ensures c == CodePattern <==> Lower(failureType) in PatternTypes && Lower(failureType) !in CiTypes
    ensures c == ErrorResolution <==> Lower(failureType) !in CiTypes + PatternTypes
  {
    var t := Lower(failureType);
    if t in CiTypes then CiFailure
    else if t in PatternTypes then CodePattern
    else ErrorResolution
  }

  /** The two sets of failure types have nothing in common, so each listed
      type has exactly one category. */
  lemma TypesDisjoint()
    ensures CiTypes * PatternTypes == {}
  {
    assert forall t :: t in CiTypes ==> t !in PatternTypes;
  }

  /** The category does not depend on the case of the failure type. */
  lemma CategorizeIgnoresCase(failureType: string)
    ensures Categorize(Upper(failureType)) == Categorize(failureType)
    ensures Categorize(Lower(failureType)) == Categorize(failureType)
  {
    LowerUpper(failureType);
    LowerTwice(failureType);
  }

  // ---------------------------------------------------------------------------
  // The deduplication id

  predicate IsHexDigit(c: char) {
    ('0' <= c <= '9') || ('a' <= c <= 'f')
  }

  /** A SHA-256 `hexdigest()`: 64 lower-case hexadecimal digits. */
  type HexDigest = s: string | |s| == 64 && forall i :: 0 <= i < |s| ==> IsHexDigit(s[i])
    witness seq(64, _ => '0')

  /** `text.lower().strip()`. */
  function Normal(text: string): string {
    Strip(Lower(text))
  }

  /** The text whose digest is the id. */
  function Normalized(category: string, subcategory: string, problem: string, solution: string): string {
    category + ":" + subcategory + ":" + Normal(problem) + ":" + Normal(solution)
  }

  /** `compute_id`, with `sha256` the digest of the encoded text. */
  function ComputeId(category: string, subcategory: string, problem: string, solution: string,
                     sha256: string -> HexDigest): (id: string)
    ensures |id| == 12 && forall i :: 0 <= i < 12 ==> IsHexDigit(id[i])
    ensures id == sha256(Normalized(category, subcategory, problem, solution))[..12]
  {
    sha256(category + ":" + subcategory + ":" + Strip(Lower(problem)) + ":" + Strip(Lower(solution)))[..12]
  }

  /** Whitespace around a text is dropped by the normalisation. */
  lemma NormalPadded(w1: string, text: string, w2: string)
    requires AllSpace(w1) && AllSpace(w2)
    ensures Normal(w1 + text + w2) == Normal(text)
  {
    LowerAppend(w1 + text, w2);
    LowerAppend(w1, text);
    LowerSpaces(w1);
    LowerSpaces(w2);
    StripPadded(w1, Lower(text), w2);
  }

  /** Normalising a normalised text changes nothing. */
  lemma NormalTwice(text: string)
    ensures Normal(Normal(text)) == Normal(text)
  {
    var t := Lower(text);
    var r := Strip(t);
    var a := StripSpec(t);
    assert forall i :: 0 <= i < |r| ==> r[i] == t[a + i];
    assert Lower(r) == r;
    StripTwice(t);
  }

  /** Problems and solutions that differ only in surrounding whitespace give
      the same id. */
  lemma ComputeIdIgnoresPadding(category: string, subcategory: string, problem: string, solution: string,
                                w1: string, w2: string, w3: string, w4: string, sha256: string -> HexDigest)
    requires AllSpace(w1) && AllSpace(w2) && AllSpace(w3) && AllSpace(w4)
    ensures ComputeId(category, subcategory, w1 + problem + w2, w3 + solution + w4, sha256)
         == ComputeId(category, subcategory, problem, solution, sha256)
  {
    NormalPadded(w1, problem, w2);
    NormalPadded(w3, solution, w4);
  }

  /** Problems and solutions that differ only in letter case give the same id. */
  lemma ComputeIdIgnoresCase(category: string, subcategory: string, problem: string, solution: string,
                             sha256: string -> HexDigest)
    ensures ComputeId(category, subcategory, Upper(problem), Upper(solution), sha256)
         == ComputeId(category, subcategory, problem, solution, sha256)
  {
    LowerUpper(problem);
    LowerUpper(solution);
  }

  /** Normalising the problem and the solution first gives the same id. */
  lemma ComputeIdOfNormal(category: string, subcategory: string, problem: string, solution: string,
                          sha256: string -> HexDigest)
    ensures ComputeId(category, subcategory, Normal(problem), Normal(solution), sha256)
         == ComputeId(category, subcategory, problem, solution, sha256)
  {
    NormalTwice(problem);
    NormalTwice(solution);
  }

  /** The category and the subcategory are not normalised: two texts hashed for
      the id agree only when, colons aside, their category and subcategory are
      the same, case and whitespace included. */
  lemma NormalizedKeepsKinds(c1: string, s1: string, p1: string, q1: string,
                             c2: string, s2: string, p2: string, q2: string)
    requires ':' !in c1 && ':' !in s1 && ':' !in c2 && ':' !in s2
    requires Normalized(c1, s1, p1, q1) == Normalized(c2, s2, p2, q2)
    ensures c1 == c2 && s1 == s2
  {
    LeadingFields(c1, s1, Normal(p1), Normal(q1), c2, s2, Normal(p2), Normal(q2));
  }

  /** The first two colon-free fields of a colon-separated text of four. */
  lemma LeadingFields(c1: string, s1: string, x1: string, y1: string,
                      c2: string, s2: string, x2: string, y2: string)
    requires ':' !in c1 && ':' !in s1 && ':' !in c2 && ':' !in s2
    requires c1 + ":" + s1 + ":" + x1 + ":" + y1 == c2 + ":" + s2 + ":" + x2 + ":" + y2
    ensures c1 == c2 && s1 == s2
  {
    var r1 := x1 + ":" + y1;
    var r2 := x2 + ":" + y2;
    assert c1 + ":" + s1 + ":" + x1 + ":" + y1 == c1 + ":" + (s1 + ":" + r1);
    assert c2 + ":" + s2 + ":" + x2 + ":" + y2 == c2 + ":" + (s2 + ":" + r2);
    FirstField(c1, s1 + ":" + r1, c2, s2 + ":" + r2);
    FirstField(s1, r1, s2, r2);
  }

  /** A text made of a colon-free field, a colon and a rest determines the
      field and the rest. */
  lemma FirstField(f1: string, rest1: string, f2: string, rest2: string)
    requires ':' !in f1 && ':' !in f2
    requires f1 + ":" + rest1 == f2 + ":" + rest2
    ensures f1 == f2 && rest1 == rest2
  {
    var s := f1 + ":" + rest1;
    assert forall j :: 0 <= j < |f1| ==> s[j] == f1[j];
    IndexOfAt(s, ':', |f1|);
    assert forall j :: 0 <= j < |f2| ==> s[j] == f2[j];
    IndexOfAt(s, ':', |f2|);
    assert f1 == s[..|f1|] == f2;
    assert rest1 == s[|f1| + 1..] == rest2;
  }

  // ---------------------------------------------------------------------------
  // A learning from a verified fix

  /** No element occurs twice. */
  predicate Distinct(xs: seq<string>) {
    forall i, j :: 0 <= i < j < |xs| ==> xs[i] != xs[j]
  }

  /** `list(set(xs))`: each element once, here in the order of first occurrence. */
  function Dedup(xs: seq<string>): (r: seq<string>)
    ensures Distinct(r)
    ensures forall x :: x in r <==> x in xs
  {
    if xs == [] then []
    else
      var front := Dedup(xs[..|xs| - 1]);
      var last := xs[|xs| - 1];
      assert xs == xs[..|xs| - 1] + [last];
      if last in front then front else front + [last]
  }

  /** `from_verified_fix`, with the timestamp of creation and the digest function
      as parameters and the confidence medium unless given. */
  function FromVerifiedFix(ticket: string, repo: string, failure: FailureRecord, fix: FixAttempt,
                           title: string, applicability: string, now: Timestamp,
                           sha256: string -> HexDigest, confidence: LearningConfidence := Medium): (l: Learning)
    ensures l.category == Categorize(failure.failureType)
    ensures l.id == ComputeId(l.category.Value(), failure.failureType, failure.errorMessage,
                              fix.solutionDescription, sha256)
    ensures l.subcategory == failure.failureType
    ensures l.problem == failure.errorMessage && l.errorOutput == Some(failure.errorMessage)
    ensures l.solution == fix.solutionDescription && l.codeDiff == fix.codeChanges
    ensures l.ticket == ticket && l.repo == repo && l.title == title && l.applicability == applicability
    ensures l.confidence == confidence && l.timestamp == now
    ensures Distinct(l.filesAffected)
    ensures forall f :: f in l.filesAffected <==> f in failure.filesInvolved || f in fix.filesModified
  {
    var category := Categorize(failure.failureType);
    var learningId := ComputeId(category.Value(), failure.failureType, failure.errorMessage,
                                fix.solutionDescription, sha256);
    Learning(
      id := learningId,
      timestamp := now,
      ticket := ticket,
      category := category,
      subcategory := failure.failureType,
      repo := repo,
      title := title,
      problem := failure.errorMessage,
      errorOutput := Some(failure.errorMessage),
      solution := fix.solutionDescription,
      filesAffected := Dedup(failure.filesInvolved + fix.filesModified),
      codeDiff := fix.codeChanges,
      applicability := applicability,
      confidence := confidence)
  }

  /** Without an explicit confidence the learning is of medium confidence. */
  lemma FromVerifiedFixMedium(ticket: string, repo: string, failure: FailureRecord, fix: FixAttempt,
                              title: string, applicability: string, now: Timestamp, sha256: string -> HexDigest)
    ensures FromVerifiedFix(ticket, repo, failure, fix, title, applicability, now, sha256).confidence == Medium
  {
  }

  /** Two fixes of the same failure type whose error messages and solutions
      differ only in case give learnings with the same id. */
  lemma SameFixSameId(ticket: string, repo: string, failure: FailureRecord, fix: FixAttempt,
                      title: string, applicability: string, now: Timestamp, sha256: string -> HexDigest)
    ensures var f2 := failure.(errorMessage := Upper(failure.errorMessage));
      var x2 := fix.(solutionDescription := Upper(fix.solutionDescription));
      FromVerifiedFix(ticket, repo, f2, x2, title, applicability, now, sha256).id
        == FromVerifiedFix(ticket, repo, failure, fix, title, applicability, now, sha256).id
  {
    ComputeIdIgnoresCase(Categorize(failure.failureType).Value(), failure.failureType, failure.errorMessage,
                         fix.solutionDescription, sha256);
  }
}

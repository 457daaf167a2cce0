/** The in-memory part of the lifecycle store of pull requests created by the agent
    (`PRTracker` in jirade/pr_tracker.py): a dictionary from `"repo#number"` to a
    record, whose iteration order is the order in which keys were first inserted. */
module PrTracker {
  import opened Strings
  import opened Wrappers

  /** One tracked pull request. Timestamps are opaque strings supplied by the caller. */
  datatype TrackedPR = TrackedPR(
    prNumber: int,
    prUrl: string,
    repo: string,
    ticketKey: string,
    branch: string,
    createdAt: string,
    lastChecked: Option<string>,
    status: string,        // "open", "merged", "closed", "needs_attention"
    ciStatus: string,      // "pending", "success", "failure"
    hasFeedback: bool,
    feedbackAddressed: bool)

  /** The record `TrackedPR(...)` builds from the five identifying fields and a
      creation time, the remaining fields taking their declared defaults. */
  function NewTrackedPR(prNumber: int, prUrl: string, repo: string, ticketKey: string,
                        branch: string, createdAt: string): TrackedPR
  {
    TrackedPR(prNumber, prUrl, repo, ticketKey, branch, createdAt, None, "open", "pending", false, false)
  }

  /** The dictionary key of a pull request: `f"{repo}#{pr_number}"`. */
  function Key(repo: string, prNumber: int): string {
    repo + "#" + IntToString(prNumber)
  }

  /** The decimal form of a number holds no `#`, so the last `#` of a key separates
      the repository from the number, and distinct pairs give distinct keys. */
  lemma KeyInjective(repo1: string, n1: int, repo2: string, n2: int)
    requires Key(repo1, n1) == Key(repo2, n2)
    ensures repo1 == repo2 && n1 == n2
  {
    var k := Key(repo1, n1);
    var d1, d2 := IntToString(n1), IntToString(n2);
    assert k[|repo1|] == '#' && k[|repo1| + 1..] == d1;
    assert k[|repo2|] == '#' && k[|repo2| + 1..] == d2;
    assert |repo1| == |repo2|;
    assert repo1 == k[..|repo1|] == repo2;
    IntToStringInjective(n1, n2);
  }

  // ---------------------------------------------------------------------------
  // Field updates (`update_pr(repo, pr_number, **updates)`)

  /** A Python value passed as a keyword argument. */
  datatype Value = IntValue(i: int) | StrValue(s: string) | BoolValue(b: bool) | NoneValue

  /** One keyword argument `name=value`. */
  datatype Update = Update(name: string, value: Value)

  /** The fields of a `TrackedPR`. */
  datatype Field =
    | PrNumber | PrUrl | Repo | TicketKey | Branch | CreatedAt
    | LastChecked | Status | CiStatus | HasFeedback | FeedbackAddressed

  /** The field `hasattr(pr, name)` finds, if any. */
  function FieldNamed(name: string): Option<Field> {
    match name
    case "pr_number" => Some(PrNumber)
    case "pr_url" => Some(PrUrl)
    case "repo" => Some(Repo)
    case "ticket_key" => Some(TicketKey)
    case "branch" => Some(Branch)
    case "created_at" => Some(CreatedAt)
    case "last_checked" => Some(LastChecked)
    case "status" => Some(Status)
    case "ci_status" => Some(CiStatus)
    case "has_feedback" => Some(HasFeedback)
    case "feedback_addressed" => Some(FeedbackAddressed)
    case _ => None
  }

  /** A value of the declared type of field `f`. */
  predicate FitsField(f: Field, v: Value) {
    match f
    case PrNumber => v.IntValue?
    case LastChecked => v.StrValue? || v.NoneValue?
    case HasFeedback => v.BoolValue?
    case FeedbackAddressed => v.BoolValue?
    case _ => v.StrValue?
  }

  /** A keyword argument naming a field carries a value of that field's type. */
  predicate Fits(u: Update) {
    FieldNamed(u.name).Some? ==> FitsField(FieldNamed(u.name).value, u.value)
  }

  predicate WellTyped(updates: seq<Update>) {
    forall i :: 0 <= i < |updates| ==> Fits(updates[i])
  }

  /** The current value of field `f` of `pr`, as a Python value. */
  function FieldValue(pr: TrackedPR, f: Field): Value {
    match f
    case PrNumber => IntValue(pr.prNumber)
    case PrUrl => StrValue(pr.prUrl)
    case Repo => StrValue(pr.repo)
    case TicketKey => StrValue(pr.ticketKey)
    case Branch => StrValue(pr.branch)
    case CreatedAt => StrValue(pr.createdAt)
    case LastChecked => if pr.lastChecked.Some? then StrValue(pr.lastChecked.value) else NoneValue
    case Status => StrValue(pr.status)
    case CiStatus => StrValue(pr.ciStatus)
    case HasFeedback => BoolValue(pr.hasFeedback)
    case FeedbackAddressed => BoolValue(pr.feedbackAddressed)
  }

  /** `setattr(pr, f, v)` for a value of the field's type. */
  function Set(pr: TrackedPR, f: Field, v: Value): TrackedPR
    requires FitsField(f, v)
  {
    match f
    case PrNumber => pr.(prNumber := v.i)
    case PrUrl => pr.(prUrl := v.s)
    case Repo => pr.(repo := v.s)
    case TicketKey => pr.(ticketKey := v.s)
    case Branch => pr.(branch := v.s)
    case CreatedAt => pr.(createdAt := v.s)
    case LastChecked => pr.(lastChecked := if v.StrValue? then Some(v.s) else None)
    case Status => pr.(status := v.s)
    case CiStatus => pr.(ciStatus := v.s)
    case HasFeedback => pr.(hasFeedback := v.b)
    case FeedbackAddressed => pr.(feedbackAddressed := v.b)
  }

  /** One step of the setattr loop: `if hasattr(pr, name): setattr(pr, name, value)`. */
  function SetField(pr: TrackedPR, u: Update): TrackedPR
    requires Fits(u)
  {
    match FieldNamed(u.name)
    case Some(f) => Set(pr, f, u.value)
    case None => pr
  }

  /** The whole setattr loop, in keyword-argument order. */
  function ApplyUpdates(pr: TrackedPR, updates: seq<Update>): TrackedPR
    requires WellTyped(updates)
    decreases updates
  {
    if updates == [] then pr else ApplyUpdates(SetField(pr, updates[0]), updates[1..])
  }

  /** The value the last keyword argument naming field `f` carries, if any. */
  function LastFor(updates: seq<Update>, f: Field): Option<Value> {
    if updates == [] then None
    else
      var later := LastFor(updates[1..], f);
      if later.Some? then later
      else if FieldNamed(updates[0].name) == Some(f) then Some(updates[0].value) else None
  }

  /** Setting a field and reading it back gives the value set; other fields are
      untouched. */
  lemma SetThenGet(pr: TrackedPR, f: Field, v: Value, g: Field)
    requires FitsField(f, v)
    ensures FieldValue(Set(pr, f, v), g) == if f == g then v else FieldValue(pr, g)
  {
  }

  /** After the setattr loop each field holds the last value supplied for it and a
      field no argument names keeps its value (so arguments naming no field are
      ignored). */
  lemma {:induction false} ApplyUpdatesField(pr: TrackedPR, updates: seq<Update>, f: Field)
    requires WellTyped(updates)
    ensures FieldValue(ApplyUpdates(pr, updates), f) == LastFor(updates, f).GetOr(FieldValue(pr, f))
    decreases updates
  {
    if updates != [] {
      var u := updates[0];
      ApplyUpdatesField(SetField(pr, u), updates[1..], f);
      if FieldNamed(u.name).Some? {
        SetThenGet(pr, FieldNamed(u.name).value, u.value, f);
      }
    }
  }

  /** Keyword arguments that name no field leave the record as it was. */
  lemma {:induction false} ApplyUnknownUpdates(pr: TrackedPR, updates: seq<Update>)
    requires forall i :: 0 <= i < |updates| ==> FieldNamed(updates[i].name) == None
    ensures WellTyped(updates) && ApplyUpdates(pr, updates) == pr
  {
    if updates != [] {
      ApplyUnknownUpdates(pr, updates[1..]);
    }
  }

  // ---------------------------------------------------------------------------
  // Listing filters

  /** The two listing queries. `OpenIn(repo)` filters by repository when `repo` is
      not None; `AttentionIn(repo)` filters only when `repo` is truthy, so an empty
      string filters nothing there. */
  datatype Query = OpenIn(repo: Option<string>) | AttentionIn(repo: Option<string>)

  /** CI failed, or there is feedback not yet addressed. */
  predicate NeedsAttention(pr: TrackedPR) {
    pr.ciStatus == "failure" || (pr.hasFeedback && !pr.feedbackAddressed)
  }

  predicate Keep(q: Query, pr: TrackedPR) {
    match q
    case OpenIn(repo) => pr.status == "open" && (repo.None? || pr.repo == repo.value)
    case AttentionIn(repo) =>
      pr.status == "open" && !(repo.Some? && repo.value != "" && pr.repo != repo.value) && NeedsAttention(pr)
  }

  /** The records of `keys[..n]`, in that order, that the query keeps. */
  function Select(keys: seq<string>, prs: map<string, TrackedPR>, q: Query, n: nat): seq<TrackedPR>
    requires forall i :: 0 <= i < |keys| ==> keys[i] in prs
    requires n <= |keys|
  {
    if n == 0 then []
    else Select(keys, prs, q, n - 1) + (if Keep(q, prs[keys[n - 1]]) then [prs[keys[n - 1]]] else [])
  }

  /** `pr` is one of the stored records. */
  predicate Stored(prs: map<string, TrackedPR>, pr: TrackedPR) {
    exists k :: k in prs && prs[k] == pr
  }

  /** A record is listed exactly when it is stored under one of the keys and the
      query keeps it. */
  lemma {:induction false} SelectMembers(keys: seq<string>, prs: map<string, TrackedPR>, q: Query, n: nat, pr: TrackedPR)
    requires forall i :: 0 <= i < |keys| ==> keys[i] in prs
    requires n <= |keys|
    ensures pr in Select(keys, prs, q, n) <==> Keep(q, pr) && exists i :: 0 <= i < n && prs[keys[i]] == pr
  {
    if n > 0 {
      SelectMembers(keys, prs, q, n - 1, pr);
    }
  }

  predicate Distinct(keys: seq<string>) {
    forall i, j :: 0 <= i < j < |keys| ==> keys[i] != keys[j]
  }

  lemma DistinctTail(keys: seq<string>)
    requires keys != []
    ensures Distinct(keys) ==> Distinct(keys[1..]) && keys[0] !in keys[1..]
  {
  }

  predicate IsClosed(pr: TrackedPR) {
    pr.status in {"merged", "closed"}
  }

  /** `[key for key, pr in self.prs.items() if pr.status in ("merged", "closed")]`. */
  function ClosedKeys(keys: seq<string>, prs: map<string, TrackedPR>): (r: seq<string>)
    requires forall i :: 0 <= i < |keys| ==> keys[i] in prs
    ensures forall x :: x in r <==> x in keys && IsClosed(prs[x])
  {
    if keys == [] then []
    else (if IsClosed(prs[keys[0]]) then [keys[0]] else []) + ClosedKeys(keys[1..], prs)
  }

  /** `keys` without the keys of closed records. */
  function OpenKeys(keys: seq<string>, prs: map<string, TrackedPR>): (r: seq<string>)
    requires forall i :: 0 <= i < |keys| ==> keys[i] in prs
    ensures forall x :: x in r <==> x in keys && !IsClosed(prs[x])
  {
    if keys == [] then []
    else (if IsClosed(prs[keys[0]]) then [] else [keys[0]]) + OpenKeys(keys[1..], prs)
  }

  /** `keys` without those in `drop`, the rest in order. */
  function Minus(keys: seq<string>, drop: set<string>): (r: seq<string>)
    ensures forall x :: x in r <==> x in keys && x !in drop
  {
    if keys == [] then []
    else (if keys[0] in drop then [] else [keys[0]]) + Minus(keys[1..], drop)
  }

  lemma DistinctCons(x: string, keys: seq<string>)
    requires x !in keys && Distinct(keys)
    ensures Distinct([x] + keys)
  {
  }

  lemma {:induction false} MinusDistinct(keys: seq<string>, drop: set<string>)
    requires Distinct(keys)
    ensures Distinct(Minus(keys, drop))
  {
    if keys != [] {
      DistinctTail(keys);
      MinusDistinct(keys[1..], drop);
      if keys[0] !in drop {
        DistinctCons(keys[0], Minus(keys[1..], drop));
      }
    }
  }

  lemma {:induction false} MinusMinus(keys: seq<string>, drop: set<string>, k: string)
    ensures Minus(Minus(keys, drop), {k}) == Minus(keys, drop + {k})
  {
    if keys != [] {
      MinusMinus(keys[1..], drop, k);
      var x, m := keys[0], Minus(keys[1..], drop);
      if x !in drop {
        assert Minus(keys, drop) == [x] + m;
        assert ([x] + m)[1..] == m && ([x] + m)[0] == x;
        assert Minus([x] + m, {k}) == (if x == k then [] else [x]) + Minus(m, {k});
        assert Minus(keys, drop + {k}) == (if x == k then [] else [x]) + Minus(keys[1..], drop + {k});
      } else {
        assert x in drop + {k};
        assert Minus(keys, drop) == [] + m == m;
        assert Minus(keys, drop + {k}) == Minus(keys[1..], drop + {k});
      }
    }
  }

  lemma {:induction false} MinusNothing(keys: seq<string>)
    ensures Minus(keys, {}) == keys
  {
    if keys != [] {
      MinusNothing(keys[1..]);
    }
  }

  lemma {:induction false} MinusAbsent(keys: seq<string>, k: string)
    requires k !in keys
    ensures Minus(keys, {k}) == keys
  {
    if keys != [] {
      MinusAbsent(keys[1..], k);
    }
  }

  /** Dropping the keys of closed records is what `OpenKeys` keeps. */
  lemma {:induction false} MinusClosed(keys: seq<string>, prs: map<string, TrackedPR>, drop: set<string>)
    requires forall i :: 0 <= i < |keys| ==> keys[i] in prs
    requires forall x :: x in keys ==> (x in drop <==> IsClosed(prs[x]))
    ensures Minus(keys, drop) == OpenKeys(keys, prs)
  {
    if keys != [] {
      MinusClosed(keys[1..], prs, drop);
    }
  }

  /** `m` without the keys in `drop`. */
  function DropKeys(m: map<string, TrackedPR>, drop: set<string>): (r: map<string, TrackedPR>)
    ensures r.Keys == m.Keys - drop
    ensures forall k :: k in r ==> r[k] == m[k]
  {
    map k | k in m && k !in drop :: m[k]
  }

  lemma DropOneMore(m: map<string, TrackedPR>, drop: set<string>, k: string)
    ensures DropKeys(m, drop) - {k} == DropKeys(m, drop + {k})
  {
  }

  /** A sequence without repetitions has as many elements as the set of them. */
  lemma {:induction false} ClosedKeysDistinct(keys: seq<string>, prs: map<string, TrackedPR>)
    requires forall i :: 0 <= i < |keys| ==> keys[i] in prs
    requires Distinct(keys)
    ensures Distinct(ClosedKeys(keys, prs))
  {
    if keys != [] {
      DistinctTail(keys);
      ClosedKeysDistinct(keys[1..], prs);
      if IsClosed(prs[keys[0]]) {
        DistinctCons(keys[0], ClosedKeys(keys[1..], prs));
      }
    }
  }

  lemma {:induction false} DistinctCard(keys: seq<string>, elems: set<string>)
    requires Distinct(keys)
    requires forall x :: x in elems <==> x in keys
    ensures |elems| == |keys|
  {
    if keys != [] {
      DistinctTail(keys);
      DistinctCard(keys[1..], elems - {keys[0]});
    }
  }

  lemma DropSize(m: map<string, TrackedPR>, drop: set<string>)
    requires drop <= m.Keys
    ensures |DropKeys(m, drop)| == |m| - |drop|
  {
    var r := DropKeys(m, drop);
    assert m.Keys == r.Keys + drop && r.Keys !! drop;
    assert |m.Keys| == |r.Keys| + |drop|;
  }

  /** When `drop` holds exactly the keys of closed records, dropping them keeps
      the records that are not closed. */
  lemma DropClosed(m: map<string, TrackedPR>, keys: seq<string>, drop: set<string>)
    requires forall k :: k in m <==> k in keys
    requires forall x :: x in keys ==> (x in drop <==> IsClosed(m[x]))
    ensures DropKeys(m, drop) == map k | k in m && !IsClosed(m[k]) :: m[k]
  {
  }

  /** The elements of `s[..n]`. */
  ghost function PrefixSet(s: seq<string>, n: nat): set<string>
    requires n <= |s|
  {
    if n == 0 then {} else PrefixSet(s, n - 1) + {s[n - 1]}
  }

  lemma {:induction false} PrefixSetMembers(s: seq<string>, n: nat)
    requires n <= |s|
    ensures forall x :: x in PrefixSet(s, n) <==> exists i :: 0 <= i < n && s[i] == x
  {
    if n > 0 {
      PrefixSetMembers(s, n - 1);
    }
  }

  /** The order lists every stored key exactly once. */
  ghost predicate Consistent(prs: map<string, TrackedPR>, order: seq<string>) {
    (forall k :: k in prs <==> k in order) && Distinct(order)
  }

  /** What deleting, one by one, the keys of the closed records leaves behind. */
  lemma CleanupOutcome(prs: map<string, TrackedPR>, order: seq<string>, toRemove: seq<string>)
    requires Consistent(prs, order)
    requires toRemove == ClosedKeys(order, prs)
    ensures Consistent(DropKeys(prs, PrefixSet(toRemove, |toRemove|)), Minus(order, PrefixSet(toRemove, |toRemove|)))
    ensures DropKeys(prs, PrefixSet(toRemove, |toRemove|)) == map k | k in prs && !IsClosed(prs[k]) :: prs[k]
    ensures Minus(order, PrefixSet(toRemove, |toRemove|)) == OpenKeys(order, prs)
    ensures |toRemove| == |prs| - |DropKeys(prs, PrefixSet(toRemove, |toRemove|))|
  {
    var dropped := PrefixSet(toRemove, |toRemove|);
    PrefixSetMembers(toRemove, |toRemove|);
    assert forall x :: x in dropped <==> x in toRemove;
    MinusClosed(order, prs, dropped);
    DropClosed(prs, order, dropped);
    ClosedKeysDistinct(order, prs);
    MinusDistinct(order, dropped);
    DistinctCard(toRemove, dropped);
    DropSize(prs, dropped);
  }

  class Tracker {
    /** `self.prs`: key `"repo#number"` to record. */
    var prs: map<string, TrackedPR>
    /** The dictionary's iteration order: keys in order of first insertion. */
    var order: seq<string>

    ghost predicate Valid()
      reads this
    {
      Consistent(prs, order)
    }

    /** An empty tracker (loading from disk is not modelled). */
    constructor ()
      ensures Valid() && prs == map[] && order == []
    {
      prs := map[];
      order := [];
    }

    /** `get_pr`: the record under the pair's key, if any. */
    function GetPr(repo: string, prNumber: int): (r: Option<TrackedPR>)
      reads this
      ensures r.Some? <==> Key(repo, prNumber) in prs
      ensures r.Some? ==> r.value == prs[Key(repo, prNumber)]
      ensures Valid() ==> (r.Some? <==> Key(repo, prNumber) in order)
    {
      var key := Key(repo, prNumber);
      if key in prs then Some(prs[key]) else None
    }

    /** `add_pr`: store a fresh record with the defaults, replacing any record
        already stored under the same key (a replaced key keeps its position). */
    method AddPr(prNumber: int, prUrl: string, repo: string, ticketKey: string, branch: string, now: string)
      returns (pr: TrackedPR)
      requires Valid()
      modifies this
      ensures Valid()
      ensures pr.prNumber == prNumber && pr.prUrl == prUrl && pr.repo == repo
      ensures pr.ticketKey == ticketKey && pr.branch == branch && pr.createdAt == now
      ensures pr.status == "open" && pr.ciStatus == "pending" && pr.lastChecked == None
      ensures !pr.hasFeedback && !pr.feedbackAddressed
      ensures GetPr(repo, prNumber) == Some(pr)
      ensures prs == old(prs)[Key(repo, prNumber) := pr]
      ensures order == if Key(repo, prNumber) in old(prs) then old(order) else old(order) + [Key(repo, prNumber)]
    {
      var key := Key(repo, prNumber);
      pr := NewTrackedPR(prNumber, prUrl, repo, ticketKey, branch, now);
      if key !in prs {
        order := order + [key];
      }
      prs := prs[key := pr];
    }

    /** `update_pr`: None when no record is stored under the key; otherwise the
        setattr loop over the keyword arguments, then the `last_checked` stamp. */
    method UpdatePr(repo: string, prNumber: int, updates: seq<Update>, now: string)
      returns (r: Option<TrackedPR>)
      requires Valid() && WellTyped(updates)
      modifies this
      ensures Valid() && order == old(order)
      ensures Key(repo, prNumber) !in old(prs) ==> r == None && prs == old(prs)
      ensures Key(repo, prNumber) in old(prs) ==>
        && r == Some(ApplyUpdates(old(prs)[Key(repo, prNumber)], updates).(lastChecked := Some(now)))
        && prs == old(prs)[Key(repo, prNumber) := r.value]
    {
      var key := Key(repo, prNumber);
      if key !in prs {
        return None;
      }
      var pr := prs[key];
      var i := 0;
      while i < |updates|
        invariant 0 <= i <= |updates|
        invariant ApplyUpdates(pr, updates[i..]) == ApplyUpdates(old(prs)[key], updates)
      {
        assert updates[i..][1..] == updates[i + 1..];
        pr := SetField(pr, updates[i]);
        i := i + 1;
      }
      pr := pr.(lastChecked := Some(now));
      prs := prs[key := pr];
      r := Some(pr);
    }

    /** `get_open_prs`: the open records, of `repo` when it is given, in
        iteration order. */
    method GetOpenPrs(repo: Option<string>) returns (result: seq<TrackedPR>)
      requires Valid()
      ensures result == Select(order, prs, OpenIn(repo), |order|)
      ensures forall pr :: pr in result <==>
        && Stored(prs, pr) && pr.status == "open" && (repo.None? || pr.repo == repo.value)
    {
      result := [];
      var i := 0;
      while i < |order|
        invariant 0 <= i <= |order|
        invariant result == Select(order, prs, OpenIn(repo), i)
      {
        var pr := prs[order[i]];
        if pr.status == "open" {
          if repo.None? || pr.repo == repo.value {
            result := result + [pr];
          }
        }
        i := i + 1;
      }
      ListedIffStored(OpenIn(repo));
    }

    /** `get_prs_needing_attention`: the open records with a CI failure or
        unaddressed feedback, of `repo` when it is a non-empty string. */
    method GetPrsNeedingAttention(repo: Option<string>) returns (result: seq<TrackedPR>)
      requires Valid()
      ensures result == Select(order, prs, AttentionIn(repo), |order|)
      ensures forall pr :: pr in result <==>
        && Stored(prs, pr) && pr.status == "open"
        && (repo.None? || repo.value == "" || pr.repo == repo.value)
        && (pr.ciStatus == "failure" || (pr.hasFeedback && !pr.feedbackAddressed))
    {
      result := [];
      var i := 0;
      while i < |order|
        invariant 0 <= i <= |order|
        invariant result == Select(order, prs, AttentionIn(repo), i)
      {
        var pr := prs[order[i]];
        i := i + 1;
        if pr.status != "open" {
          continue;
        }
        if repo.Some? && repo.value != "" && pr.repo != repo.value {
          continue;
        }
        var needsAttention := pr.ciStatus == "failure" || (pr.hasFeedback && !pr.feedbackAddressed);
        if needsAttention {
          result := result + [pr];
        }
      }
      ListedIffStored(AttentionIn(repo));
    }

    /** Listing over the iteration order finds exactly the stored records the
        query keeps. */
    lemma ListedIffStored(q: Query)
      requires Valid()
      ensures forall pr :: pr in Select(order, prs, q, |order|) <==> Keep(q, pr) && Stored(prs, pr)
    {
      forall pr
        ensures pr in Select(order, prs, q, |order|) <==> Keep(q, pr) && Stored(prs, pr)
      {
        SelectMembers(order, prs, q, |order|, pr);
        if Stored(prs, pr) {
          var k :| k in prs && prs[k] == pr;
          var i :| 0 <= i < |order| && order[i] == k;
        }
      }
    }

    /** `remove_pr`: True exactly when a record was stored under the key; the key is
        gone afterwards and every other record stays where it was. */
    method RemovePr(repo: string, prNumber: int) returns (removed: bool)
      requires Valid()
      modifies this
      ensures Valid()
      ensures removed == (Key(repo, prNumber) in old(prs))
      ensures prs == old(prs) - {Key(repo, prNumber)}
      ensures order == Minus(old(order), {Key(repo, prNumber)})
    {
      var key := Key(repo, prNumber);
      if key in prs {
        Delete(key);
        return true;
      }
      MinusAbsent(order, key);
      return false;
    }

    /** `del self.prs[key]`: the key leaves the dictionary and its iteration order. */
    method Delete(key: string)
      requires Valid() && key in prs
      modifies this
      ensures Valid()
      ensures prs == old(prs) - {key}
      ensures order == Minus(old(order), {key})
    {
      MinusDistinct(order, {key});
      prs := prs - {key};
      order := Minus(order, {key});
    }

    /** `cleanup_closed`: drop every record whose status is "merged" or "closed" and
        return how many were dropped; the other records stay, in their order. */
    method CleanupClosed() returns (count: nat)
      requires Valid()
      modifies this
      ensures Valid()
      ensures prs == map k | k in old(prs) && !IsClosed(old(prs)[k]) :: old(prs)[k]
      ensures order == OpenKeys(old(order), old(prs))
      ensures count == |ClosedKeys(old(order), old(prs))|
      ensures count == |old(prs)| - |prs|
    {
      var toRemove := ClosedKeys(order, prs);
      ClosedKeysDistinct(order, prs);
      DeleteAll(toRemove);
      CleanupOutcome(old(prs), old(order), toRemove);
      count := |toRemove|;
    }

    /** `for key in keys: del self.prs[key]`, for distinct keys that are all stored. */
    method DeleteAll(keys: seq<string>)
      requires Distinct(keys) && forall k :: k in keys ==> k in prs
      modifies this
      ensures prs == DropKeys(old(prs), PrefixSet(keys, |keys|))
      ensures order == Minus(old(order), PrefixSet(keys, |keys|))
    {
      MinusNothing(order);
      assert DropKeys(old(prs), {}) == prs;
      for i := 0 to |keys|
        invariant prs == DropKeys(old(prs), PrefixSet(keys, i))
        invariant order == Minus(old(order), PrefixSet(keys, i))
      {
        var key := keys[i];
        DropOneMore(old(prs), PrefixSet(keys, i), key);
        MinusMinus(old(order), PrefixSet(keys, i), key);
        prs := prs - {key};
        order := Minus(order, {key});
      }
    }
  }
}

/** One poll of the `watch` command of jira_agent/main.py (`handle_watch`), and
    what a whole run of polls guarantees. Each poll looks at the tickets Jira
    lists in the trigger status, processes those not already in flight, then
    looks at the repository's closed PRs and moves the ticket of each newly
    merged one to the done status. Two sets remember what was seen across polls:
    the tickets being processed and the PR numbers already handled. */
module Watch {
  import opened Wrappers
  import opened Correlator

  /** What `process_single_ticket` reported (`result["status"]`), or that it raised. */
  datatype ProcessOutcome = Completed | Skipped | Failed | ProcessRaised

  /** What `transition_ticket_to_done` reported (`result["success"]`), or that it raised. */
  datatype TransitionOutcome = Succeeded | NotSucceeded | TransitionRaised

  /** A closed PR as GitHub lists it; `merged` stands for a truthy `merged_at`. */
  datatype ClosedPr = ClosedPr(number: int, title: string, branch: string, merged: bool)

  /** A call the poll made to one of the collaborators, with its answer. */
  datatype Event =
    | Processed(ticket: string, outcome: ProcessOutcome)
    | TransitionTried(pr: int, ticket: string, result: TransitionOutcome)

  /** The answers of the ticket processor in one poll: `process(i, key)` is what
      the call made for the `i`-th ticket of the poll's list, `key`, returns.
      At most one call is made per position, so every call has its own answer. */
  type Processor = (nat, string) -> ProcessOutcome

  /** The answers of the transition call in one poll: `transition(i, ticket)` is
      what the call made for the `i`-th closed PR of the poll's list returns. */
  type Transitioner = (nat, string) -> TransitionOutcome

  /** Everything one poll receives from outside: the ticket keys Jira returned
      (None when the search raised), the answers of the ticket processor, the
      closed PRs GitHub returned (None when the listing raised) and the answers
      of the transition calls. */
  datatype Poll = Poll(
    tickets: Option<seq<string>>,
    process: Processor,
    closedPrs: Option<seq<ClosedPr>>,
    transition: Transitioner)

  /** `processing_tickets` and `processed_prs`. */
  datatype Memory = Memory(processing: set<string>, processed: set<int>)

  /** Where a stretch of a poll ends: the sets, the calls made on the way, and
      whether an exception cut the poll short. */
  datatype Phase = Phase(mem: Memory, events: seq<Event>, aborted: bool)

  // ---------------------------------------------------------------------------
  // One poll, as functions

  /** One ticket of the Jira loop. A ticket in flight is skipped. Otherwise it is
      added to the set before processing, and taken out again unless processing
      completed; an exception leaves it in and ends the poll. */
  function TicketStep(m: Memory, i: nat, key: string, process: Processor): (p: Phase) {
    if key in m.processing then Phase(m, [], false)
    else
      var outcome := process(i, key);
      var added := m.(processing := m.processing + {key});
      if outcome == ProcessRaised then Phase(added, [Processed(key, outcome)], true)
      else if outcome == Completed then Phase(added, [Processed(key, outcome)], false)
      else Phase(m.(processing := added.processing - {key}), [Processed(key, outcome)], false)
  }

  /** The Jira loop over the first `n` tickets. */
  function Tickets(m: Memory, keys: seq<string>, process: Processor, n: nat): Phase
    requires n <= |keys|
  {
    if n == 0 then Phase(m, [], false)
    else
      var p := Tickets(m, keys, process, n - 1);
      if p.aborted then p
      else
        var s := TicketStep(p.mem, n - 1, keys[n - 1], process);
        Phase(s.mem, p.events + s.events, s.aborted)
  }

  /** One PR of the GitHub loop. A PR that is not merged, or whose number was
      handled before, is skipped. A merged PR without a ticket key is recorded as
      handled. Otherwise the ticket is transitioned; it leaves the in-flight set
      only when that succeeded, and the PR is recorded as handled either way,
      unless the call raised, which ends the poll. */
  function PrStep(m: Memory, i: nat, pr: ClosedPr, projectKey: string, transition: Transitioner): (p: Phase) {
    if !pr.merged || pr.number in m.processed then Phase(m, [], false)
    else
      match TicketOf(pr.title, pr.branch, projectKey)
      case None => Phase(m.(processed := m.processed + {pr.number}), [], false)
      case Some(ticket) =>
        var result := transition(i, ticket);
        var e := [TransitionTried(pr.number, ticket, result)];
        if result == TransitionRaised then Phase(m, e, true)
        else
          var processing := if result == Succeeded then m.processing - {ticket} else m.processing;
          Phase(Memory(processing, m.processed + {pr.number}), e, false)
  }

  /** The GitHub loop over the first `n` closed PRs. */
  function Prs(m: Memory, prs: seq<ClosedPr>, projectKey: string, transition: Transitioner, n: nat): Phase
    requires n <= |prs|
  {
    if n == 0 then Phase(m, [], false)
    else
      var p := Prs(m, prs, projectKey, transition, n - 1);
      if p.aborted then p
      else
        var s := PrStep(p.mem, n - 1, prs[n - 1], projectKey, transition);
        Phase(s.mem, p.events + s.events, s.aborted)
  }

  /** The ticket half of a poll. */
  function TicketHalf(m: Memory, poll: Poll): Phase {
    if poll.tickets.None? then Phase(m, [], true)
    else Tickets(m, poll.tickets.value, poll.process, |poll.tickets.value|)
  }

  /** The PR half of a poll, run only when the ticket half was not cut short. */
  function PrHalf(m: Memory, poll: Poll, projectKey: string): Phase {
    if poll.closedPrs.None? then Phase(m, [], true)
    else Prs(m, poll.closedPrs.value, projectKey, poll.transition, |poll.closedPrs.value|)
  }

  /** One whole poll: the body of the `while True` loop with its `except`. */
  function PollOnce(m: Memory, poll: Poll, projectKey: string): Phase {
    var t := TicketHalf(m, poll);
    if t.aborted then t
    else
      var p := PrHalf(t.mem, poll, projectKey);
      Phase(p.mem, t.events + p.events, p.aborted)
  }

  /** The memory and the calls after the first `n` polls of a run that starts
      with both sets empty. */
  function Run(polls: seq<Poll>, projectKey: string, n: nat): (r: Phase)
    requires n <= |polls|
  {
    if n == 0 then Phase(Memory({}, {}), [], false)
    else
      var r := Run(polls, projectKey, n - 1);
      var p := PollOnce(r.mem, polls[n - 1], projectKey);
      Phase(p.mem, r.events + p.events, false)
  }

  // ---------------------------------------------------------------------------
  // What one poll guarantees

  /** Once the loop is cut short, the later items change nothing. */
  lemma {:induction false} TicketsAborted(m: Memory, keys: seq<string>, process: Processor, i: nat, n: nat)
    requires i <= n <= |keys| && Tickets(m, keys, process, i).aborted
    ensures Tickets(m, keys, process, n) == Tickets(m, keys, process, i)
  {
    if n > i {
      TicketsAborted(m, keys, process, i, n - 1);
    }
  }

  lemma {:induction false} PrsAborted(m: Memory, prs: seq<ClosedPr>, projectKey: string, transition: Transitioner, i: nat, n: nat)
    requires i <= n <= |prs| && Prs(m, prs, projectKey, transition, i).aborted
    ensures Prs(m, prs, projectKey, transition, n) == Prs(m, prs, projectKey, transition, i)
  {
    if n > i {
      PrsAborted(m, prs, projectKey, transition, i, n - 1);
    }
  }

  /** A ticket already in flight when the poll starts is not processed again in
      it, and is still in flight when the Jira loop ends. The loop never touches
      the handled PR numbers. */
  lemma {:induction false} InFlightSkipped(m: Memory, keys: seq<string>, process: Processor, n: nat, k: string)
    requires n <= |keys| && k in m.processing
    ensures var p := Tickets(m, keys, process, n);
      && k in p.mem.processing
      && p.mem.processed == m.processed
      && forall e :: e in p.events ==> e.ticket != k
  {
    if n > 0 {
      InFlightSkipped(m, keys, process, n - 1, k);
    }
  }

  /** The Jira loop only makes processing calls, and the GitHub loop only
      transition calls; so within a poll every ticket is handled before any PR. */
  lemma {:induction false} TicketCallsOnly(m: Memory, keys: seq<string>, process: Processor, n: nat)
    requires n <= |keys|
    ensures forall e :: e in Tickets(m, keys, process, n).events ==> e.Processed?
  {
    if n > 0 {
      TicketCallsOnly(m, keys, process, n - 1);
    }
  }

  /** `x` is the number of one of the first `n` PRs, and that PR was merged. */
  predicate MergedNumber(prs: seq<ClosedPr>, n: nat, x: int)
    requires n <= |prs|
  {
    exists i :: 0 <= i < n && prs[i].merged && prs[i].number == x
  }

  /** The PR numbers the GitHub loop records as handled only grow, and only by
      numbers of merged PRs; closed PRs that were not merged are never recorded. */
  lemma {:induction false} OnlyMergedRecorded(m: Memory, prs: seq<ClosedPr>, projectKey: string, transition: Transitioner, n: nat)
    requires n <= |prs|
    ensures var p := Prs(m, prs, projectKey, transition, n);
      && m.processed <= p.mem.processed
      && forall x :: x in p.mem.processed - m.processed ==> MergedNumber(prs, n, x)
  {
    if n > 0 {
      OnlyMergedRecorded(m, prs, projectKey, transition, n - 1);
      var q := Prs(m, prs, projectKey, transition, n - 1);
      if !q.aborted {
        var s := PrStep(q.mem, n - 1, prs[n - 1], projectKey, transition);
        assert s.mem.processed <= q.mem.processed + {prs[n - 1].number};
        assert s.mem.processed != q.mem.processed ==> prs[n - 1].merged;
        forall x | x in s.mem.processed - m.processed
          ensures MergedNumber(prs, n, x)
        {
          if x in q.mem.processed {
            assert MergedNumber(prs, n - 1, x);
          } else {
            assert prs[n - 1].merged && prs[n - 1].number == x;
          }
        }
      }
    }
  }

  /** The call for one of the first `n` PRs: it was merged, its number is `pr`,
      its title and branch name `ticket`, and the call made for it answered
      `result`. */
  predicate CallFor(prs: seq<ClosedPr>, n: nat, projectKey: string, transition: Transitioner,
                    pr: int, ticket: string, result: TransitionOutcome)
    requires n <= |prs|
  {
    exists i :: 0 <= i < n && prs[i].merged && prs[i].number == pr
      && TicketOf(prs[i].title, prs[i].branch, projectKey) == Some(ticket) && transition(i, ticket) == result
  }

  /** Two merged PRs that name the same ticket lead to two calls, each with its
      own answer; a raise from the first would have ended the loop instead. */
  lemma SameTicketTwoCalls(m: Memory, a: ClosedPr, b: ClosedPr, projectKey: string, ticket: string, transition: Transitioner)
    requires a.merged && b.merged && a.number != b.number
    requires a.number !in m.processed && b.number !in m.processed
    requires TicketOf(a.title, a.branch, projectKey) == Some(ticket)
    requires TicketOf(b.title, b.branch, projectKey) == Some(ticket)
    requires transition(0, ticket) != TransitionRaised
    ensures Prs(m, [a, b], projectKey, transition, 2).events
         == [TransitionTried(a.number, ticket, transition(0, ticket)), TransitionTried(b.number, ticket, transition(1, ticket))]
    ensures Prs(m, [a, b], projectKey, transition, 2).aborted <==> transition(1, ticket) == TransitionRaised
  {
    var prs := [a, b];
    var p1 := Prs(m, prs, projectKey, transition, 1);
    assert Prs(m, prs, projectKey, transition, 0) == Phase(m, [], false);
    assert p1 == PrStep(m, 0, a, projectKey, transition);
    assert !p1.aborted && b.number !in p1.mem.processed;
    assert Prs(m, prs, projectKey, transition, 2).events == p1.events + PrStep(p1.mem, 1, b, projectKey, transition).events;
  }

  /** Every call of the GitHub loop is a transition of the ticket the correlator
      finds for a merged PR; unmatched PRs cause no call. */
  lemma {:induction false} TransitionsMatched(m: Memory, prs: seq<ClosedPr>, projectKey: string, transition: Transitioner, n: nat)
    requires n <= |prs|
    ensures forall e :: e in Prs(m, prs, projectKey, transition, n).events ==>
      && e.TransitionTried?
      && CallFor(prs, n, projectKey, transition, e.pr, e.ticket, e.result)
  {
    if n > 0 {
      TransitionsMatched(m, prs, projectKey, transition, n - 1);
      var q := Prs(m, prs, projectKey, transition, n - 1);
      if !q.aborted {
        var s := PrStep(q.mem, n - 1, prs[n - 1], projectKey, transition);
        forall e | e in q.events + s.events
          ensures e.TransitionTried? && CallFor(prs, n, projectKey, transition, e.pr, e.ticket, e.result)
        {
          if e in q.events {
            assert CallFor(prs, n - 1, projectKey, transition, e.pr, e.ticket, e.result);
          } else {
            assert e in s.events;
            assert prs[n - 1].merged && prs[n - 1].number == e.pr && transition(n - 1, e.ticket) == e.result;
          }
        }
      }
    }
  }

  /** The tickets whose transition succeeded. */
  function ClearedBy(events: seq<Event>): set<string> {
    set e | e in events && e.TransitionTried? && e.result == Succeeded :: e.ticket
  }

  /** The GitHub loop takes out of the in-flight set exactly the tickets whose
      transition succeeded, and adds none. */
  lemma {:induction false} PrLoopClears(m: Memory, prs: seq<ClosedPr>, projectKey: string, transition: Transitioner, n: nat)
    requires n <= |prs|
    ensures var p := Prs(m, prs, projectKey, transition, n);
      p.mem.processing == m.processing - ClearedBy(p.events)
  {
    if n > 0 {
      PrLoopClears(m, prs, projectKey, transition, n - 1);
      var q := Prs(m, prs, projectKey, transition, n - 1);
      if !q.aborted {
        var s := PrStep(q.mem, n - 1, prs[n - 1], projectKey, transition);
        assert ClearedBy(q.events + s.events) == ClearedBy(q.events) + ClearedBy(s.events);
      }
    }
  }

  /** No processing call comes after a transition call. */
  predicate TicketsFirst(evs: seq<Event>) {
    forall i, j :: 0 <= i < j < |evs| && evs[i].TransitionTried? ==> evs[j].TransitionTried?
  }

  /** Within one poll every ticket is handled before any PR. */
  lemma TicketsBeforePrs(m: Memory, poll: Poll, projectKey: string)
    ensures TicketsFirst(PollOnce(m, poll, projectKey).events)
  {
    var t := TicketHalf(m, poll);
    if poll.tickets.Some? {
      TicketCallsOnly(m, poll.tickets.value, poll.process, |poll.tickets.value|);
    }
    if t.aborted {
      KindsInOrder(t.events, []);
      assert t.events + [] == t.events;
    } else {
      var p := PrHalf(t.mem, poll, projectKey);
      if poll.closedPrs.Some? {
        TransitionsMatched(t.mem, poll.closedPrs.value, projectKey, poll.transition, |poll.closedPrs.value|);
      }
      KindsInOrder(t.events, p.events);
    }
  }

  /** Processing calls followed by transition calls. */
  lemma KindsInOrder(a: seq<Event>, b: seq<Event>)
    requires forall e :: e in a ==> e.Processed?
    requires forall e :: e in b ==> e.TransitionTried?
    ensures TicketsFirst(a + b)
  {
    forall k | 0 <= k < |a + b|
      ensures (a + b)[k].TransitionTried? <==> k >= |a|
    {
      if k < |a| {
        assert (a + b)[k] == a[k] && a[k] in a;
      } else {
        assert (a + b)[k] == b[k - |a|] && b[k - |a|] in b;
      }
    }
  }

  /** A poll that is not cut short records every merged PR it was shown as
      handled, whether or not a ticket key was found and whether or not the
      transition succeeded. */
  lemma {:induction false} MergedRecorded(m: Memory, prs: seq<ClosedPr>, projectKey: string, transition: Transitioner, n: nat)
    requires n <= |prs|
    requires !Prs(m, prs, projectKey, transition, n).aborted
    ensures var p := Prs(m, prs, projectKey, transition, n);
      && m.processed <= p.mem.processed
      && forall i :: 0 <= i < n && prs[i].merged ==> prs[i].number in p.mem.processed
  {
    if n > 0 {
      MergedRecorded(m, prs, projectKey, transition, n - 1);
    }
  }

  // ---------------------------------------------------------------------------
  // What a whole run guarantees

  /** A transition call that returned a verdict. */
  predicate Answered(e: Event) {
    e.TransitionTried? && e.result != TransitionRaised
  }

  /** The event clears ticket `k` from the in-flight set. */
  predicate Clears(e: Event, k: string) {
    e.TransitionTried? && e.ticket == k && e.result == Succeeded
  }

  /** Event `i` started processing a ticket that left the poll in flight (it
      completed, or it raised), and no event before `j` cleared it. */
  predicate InFlight(events: seq<Event>, i: nat, j: nat)
    requires i < j <= |events|
  {
    && events[i].Processed?
    && events[i].outcome in {Completed, ProcessRaised}
    && forall x :: i < x < j ==> !Clears(events[x], events[i].ticket)
  }

  /** The facts a run keeps, poll after poll. */
  ghost predicate Good(mem: Memory, events: seq<Event>) {
    // every PR whose transition returned a verdict is remembered as handled
    && (forall i :: 0 <= i < |events| && Answered(events[i]) ==> events[i].pr in mem.processed)
    // every ticket still in flight is in the in-flight set
    && (forall i :: 0 <= i < |events| && InFlight(events, i, |events|) ==> events[i].ticket in mem.processing)
    // no PR gets a second transition call after one that returned a verdict
    && (forall i, j :: 0 <= i < j < |events| && Answered(events[i]) && events[j].TransitionTried? ==> events[j].pr != events[i].pr)
    // no ticket is processed again while it is in flight
    && (forall i, j :: 0 <= i < j < |events| && InFlight(events, i, j) && events[j].Processed? ==> events[j].ticket != events[i].ticket)
  }

  lemma InFlightExtends(events: seq<Event>, e: Event, i: nat)
    requires i < |events|
    ensures InFlight(events + [e], i, |events|) == InFlight(events, i, |events|)
    ensures InFlight(events + [e], i, |events| + 1) == (InFlight(events, i, |events|) && !Clears(e, events[i].ticket))
  {
    var es := events + [e];
    assert forall x :: 0 <= x < |events| ==> es[x] == events[x];
    assert es[|events|] == e;
    if InFlight(events, i, |events|) && !Clears(e, events[i].ticket) {
      forall x | i < x < |es|
        ensures !Clears(es[x], es[i].ticket)
      {
      }
    }
  }

  /** Processing a ticket that is not in flight keeps a run good. */
  lemma ProcessStepGood(mem: Memory, events: seq<Event>, key: string, outcome: ProcessOutcome, mem': Memory)
    requires Good(mem, events) && key !in mem.processing
    requires mem'.processed == mem.processed
    requires mem'.processing == if outcome in {Completed, ProcessRaised} then mem.processing + {key} else mem.processing
    ensures Good(mem', events + [Processed(key, outcome)])
  {
    var e := Processed(key, outcome);
    var es := events + [e];
    assert forall x :: 0 <= x < |events| ==> es[x] == events[x];
    forall i | 0 <= i < |es| && InFlight(es, i, |es|)
      ensures es[i].ticket in mem'.processing
    {
      if i < |events| {
        InFlightExtends(events, e, i);
      }
    }
    forall i, j | 0 <= i < j < |es| && InFlight(es, i, j) && es[j].Processed?
      ensures es[j].ticket != es[i].ticket
    {
      if j == |events| {
        InFlightExtends(events, e, i);
      } else {
        assert InFlight(events, i, j);
      }
    }
    forall i, j | 0 <= i < j < |es| && Answered(es[i]) && es[j].TransitionTried?
      ensures es[j].pr != es[i].pr
    {
      assert j < |events|;
    }
  }

  /** A transition call for a PR not yet handled keeps a run good. */
  lemma TransitionStepGood(mem: Memory, events: seq<Event>, pr: int, ticket: string, result: TransitionOutcome, mem': Memory)
    requires Good(mem, events) && pr !in mem.processed
    requires result == TransitionRaised ==> mem' == mem
    requires result != TransitionRaised ==>
      mem' == Memory(if result == Succeeded then mem.processing - {ticket} else mem.processing, mem.processed + {pr})
    ensures Good(mem', events + [TransitionTried(pr, ticket, result)])
  {
    var e := TransitionTried(pr, ticket, result);
    var es := events + [e];
    assert forall x :: 0 <= x < |events| ==> es[x] == events[x];
    forall i | 0 <= i < |es| && InFlight(es, i, |es|)
      ensures es[i].ticket in mem'.processing
    {
      InFlightExtends(events, e, i);
    }
    forall i, j | 0 <= i < j < |es| && InFlight(es, i, j) && es[j].Processed?
      ensures es[j].ticket != es[i].ticket
    {
      assert j < |events| && InFlight(events, i, j);
    }
    forall i, j | 0 <= i < j < |es| && Answered(es[i]) && es[j].TransitionTried?
      ensures es[j].pr != es[i].pr
    {
      if j == |events| {
        assert es[i] == events[i];
      }
    }
  }

  /** Recording a PR without a ticket key keeps a run good. */
  lemma RecordStepGood(mem: Memory, events: seq<Event>, pr: int)
    requires Good(mem, events)
    ensures Good(mem.(processed := mem.processed + {pr}), events)
  {
  }

  lemma {:induction false} TicketsGood(mem: Memory, events: seq<Event>, keys: seq<string>, process: Processor, n: nat)
    requires n <= |keys| && Good(mem, events)
    ensures var p := Tickets(mem, keys, process, n); Good(p.mem, events + p.events)
  {
    if n == 0 {
      assert events + [] == events;
    } else {
      TicketsGood(mem, events, keys, process, n - 1);
      var q := Tickets(mem, keys, process, n - 1);
      if !q.aborted {
        var key := keys[n - 1];
        var s := TicketStep(q.mem, n - 1, key, process);
        assert events + (q.events + s.events) == (events + q.events) + s.events;
        if key !in q.mem.processing {
          assert s.events == [Processed(key, process(n - 1, key))];
          ProcessStepGood(q.mem, events + q.events, key, process(n - 1, key), s.mem);
        } else {
          assert s.events == [] && s.mem == q.mem;
          assert (events + q.events) + [] == events + q.events;
        }
      }
    }
  }

  lemma {:induction false} PrsGood(mem: Memory, events: seq<Event>, prs: seq<ClosedPr>, projectKey: string, transition: Transitioner, n: nat)
    requires n <= |prs| && Good(mem, events)
    ensures var p := Prs(mem, prs, projectKey, transition, n); Good(p.mem, events + p.events)
  {
    if n == 0 {
      assert events + [] == events;
    } else {
      PrsGood(mem, events, prs, projectKey, transition, n - 1);
      var q := Prs(mem, prs, projectKey, transition, n - 1);
      if !q.aborted {
        var pr := prs[n - 1];
        var s := PrStep(q.mem, n - 1, pr, projectKey, transition);
        assert events + (q.events + s.events) == (events + q.events) + s.events;
        if pr.merged && pr.number !in q.mem.processed {
          match TicketOf(pr.title, pr.branch, projectKey)
          case None =>
            assert s.events == [];
            assert (events + q.events) + [] == events + q.events;
            RecordStepGood(q.mem, events + q.events, pr.number);
          case Some(ticket) =>
            assert s.events == [TransitionTried(pr.number, ticket, transition(n - 1, ticket))];
            TransitionStepGood(q.mem, events + q.events, pr.number, ticket, transition(n - 1, ticket), s.mem);
        } else {
          assert s.events == [] && s.mem == q.mem;
          assert (events + q.events) + [] == events + q.events;
        }
      }
    }
  }

  lemma PollGood(mem: Memory, events: seq<Event>, poll: Poll, projectKey: string)
    requires Good(mem, events)
    ensures var p := PollOnce(mem, poll, projectKey); Good(p.mem, events + p.events)
  {
    var t := TicketHalf(mem, poll);
    if poll.tickets.Some? {
      TicketsGood(mem, events, poll.tickets.value, poll.process, |poll.tickets.value|);
    } else {
      assert events + [] == events;
    }
    if !t.aborted {
      var p := PrHalf(t.mem, poll, projectKey);
      if poll.closedPrs.Some? {
        PrsGood(t.mem, events + t.events, poll.closedPrs.value, projectKey, poll.transition, |poll.closedPrs.value|);
      } else {
        assert (events + t.events) + [] == events + t.events;
      }
      assert events + (t.events + p.events) == (events + t.events) + p.events;
    }
  }

  lemma {:induction false} RunGood(polls: seq<Poll>, projectKey: string, n: nat)
    requires n <= |polls|
    ensures var r := Run(polls, projectKey, n); Good(r.mem, r.events)
  {
    if n > 0 {
      RunGood(polls, projectKey, n - 1);
      var r := Run(polls, projectKey, n - 1);
      PollGood(r.mem, r.events, polls[n - 1], projectKey);
    }
  }

  /** Across a whole run, a PR whose transition returned a verdict is never
      transitioned again, even when later polls list it again. */
  lemma TransitionOncePerPr(polls: seq<Poll>, projectKey: string, n: nat, i: nat, j: nat)
    requires n <= |polls|
    requires var evs := Run(polls, projectKey, n).events;
      i < j < |evs| && Answered(evs[i]) && evs[j].TransitionTried?
    ensures var evs := Run(polls, projectKey, n).events; evs[j].pr != evs[i].pr
  {
    RunGood(polls, projectKey, n);
  }

  /** Across a whole run, a ticket whose processing completed (or raised) is not
      processed again until the transition of one of its PRs succeeded. */
  lemma NoReprocessWhileInFlight(polls: seq<Poll>, projectKey: string, n: nat, i: nat, j: nat)
    requires n <= |polls|
    requires var evs := Run(polls, projectKey, n).events;
      i < j < |evs| && InFlight(evs, i, j) && evs[j].Processed?
    ensures var evs := Run(polls, projectKey, n).events; evs[j].ticket != evs[i].ticket
  {
    RunGood(polls, projectKey, n);
  }

  /** Across a whole run, a ticket whose processing completed or raised stays in
      `processing_tickets` until the transition of one of its PRs succeeds; an
      exception after the ticket was added does not take it out. */
  lemma InFlightRemembered(polls: seq<Poll>, projectKey: string, n: nat, i: nat)
    requires n <= |polls|
    requires var r := Run(polls, projectKey, n); i < |r.events| && InFlight(r.events, i, |r.events|)
    ensures var r := Run(polls, projectKey, n); r.events[i].ticket in r.mem.processing
  {
    RunGood(polls, projectKey, n);
  }

  // ---------------------------------------------------------------------------
  // The watcher itself

  /** The state `handle_watch` keeps between polls. */
  class Watcher {
    var processingTickets: set<string>
    var processedPrs: set<int>
    /** The collaborator calls made so far, kept only for stating properties. */
    ghost var calls: seq<Event>

    ghost function Mem(): Memory
      reads this
    {
      Memory(processingTickets, processedPrs)
    }

    /** Both sets start empty. */
    constructor ()
      ensures processingTickets == {} && processedPrs == {} && calls == []
    {
      processingTickets := {};
      processedPrs := {};
      calls := [];
    }

    /** One poll: the Jira loop, then, unless an exception ended the poll, the
        GitHub loop. Changes made before an exception stay. */
    method Tick(poll: Poll, projectKey: string)
      modifies this
      ensures Mem() == PollOnce(old(Mem()), poll, projectKey).mem
      ensures calls == old(calls) + PollOnce(old(Mem()), poll, projectKey).events
    {
      if poll.tickets.None? {
        assert old(calls) + [] == calls;
        return;
      }
      var aborted := HandleTickets(poll.tickets.value, poll.process);
      if aborted {
        return;
      }
      if poll.closedPrs.None? {
        assert calls + [] == calls;
        return;
      }
      ghost var t := TicketHalf(old(Mem()), poll);
      aborted := HandleMergedPrs(poll.closedPrs.value, projectKey, poll.transition);
      ghost var p := PrHalf(t.mem, poll, projectKey);
      assert calls == old(calls) + t.events + p.events;
      assert old(calls) + t.events + p.events == old(calls) + (t.events + p.events);
    }

    /** The Jira loop of one poll. */
    method HandleTickets(tickets: seq<string>, process: Processor) returns (aborted: bool)
      modifies this
      ensures var p := Tickets(old(Mem()), tickets, process, |tickets|);
        Mem() == p.mem && calls == old(calls) + p.events && aborted == p.aborted
    {
      ghost var made: seq<Event> := [];
      var i := 0;
      while i < |tickets|
        invariant 0 <= i <= |tickets|
        invariant calls == old(calls) + made
        invariant Tickets(old(Mem()), tickets, process, i) == Phase(Mem(), made, false)
      {
        var ticketKey := tickets[i];
        var position := i;
        i := i + 1;
        if ticketKey in processingTickets {
          assert made + [] == made;
          continue;
        }
        processingTickets := processingTickets + {ticketKey};
        var result := process(position, ticketKey);
        calls := calls + [Processed(ticketKey, result)];
        made := made + [Processed(ticketKey, result)];
        if result == ProcessRaised {
          TicketsAborted(old(Mem()), tickets, process, i, |tickets|);
          return true;
        } else if result == Completed {
        } else {
          processingTickets := processingTickets - {ticketKey};
        }
      }
      return false;
    }

    /** The GitHub loop of one poll. */
    method HandleMergedPrs(prs: seq<ClosedPr>, projectKey: string, transition: Transitioner)
      returns (aborted: bool)
      modifies this
      ensures var p := Prs(old(Mem()), prs, projectKey, transition, |prs|);
        Mem() == p.mem && calls == old(calls) + p.events && aborted == p.aborted
    {
      ghost var made: seq<Event> := [];
      var i := 0;
      while i < |prs|
        invariant 0 <= i <= |prs|
        invariant calls == old(calls) + made
        invariant Prs(old(Mem()), prs, projectKey, transition, i) == Phase(Mem(), made, false)
      {
        var pr := prs[i];
        var position := i;
        i := i + 1;
        if !pr.merged || pr.number in processedPrs {
          assert made + [] == made;
          continue;
        }
        var found := TicketOf(pr.title, pr.branch, projectKey);
        if found.None? {
          assert made + [] == made;
          processedPrs := processedPrs + {pr.number};
          continue;
        }
        var ticketKey := found.value;
        var result := transition(position, ticketKey);
        calls := calls + [TransitionTried(pr.number, ticketKey, result)];
        made := made + [TransitionTried(pr.number, ticketKey, result)];
        if result == TransitionRaised {
          PrsAborted(old(Mem()), prs, projectKey, transition, i, |prs|);
          return true;
        }
        if result == Succeeded {
          processingTickets := processingTickets - {ticketKey};
        }
        processedPrs := processedPrs + {pr.number};
      }
      return false;
    }
  }
}

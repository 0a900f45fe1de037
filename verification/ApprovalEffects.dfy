/**
  What one signal or wake-up of the approval workflow brings about: which commands close, end, reset
  or hand over, what they leave of the node, and what is reported.
 */
module ApprovalEffects {
  import opened Approval
  import opened ApprovalRuns

  /** A command that is heard: well formed, under a new id, and its activities succeed. */
  predicate Heard(s: State, e: Event) {
    Live(s) && e.Signal? && e.recorded && e.completed && !Malformed(e.command) && e.command.id !in s.processed
  }

  predicate ByAssignee(s: State, e: Event)
    requires Heard(s, e)
  {
    e.command.actor in s.nodes[s.current].node.assignees
  }

  function Processed(s: State, e: Event): State
    requires e.Signal?
  {
    s.(processed := s.processed + [e.command.id])
  }

  // ----- The start -----

  /**
    A run starts with its first node active and the others pending, nobody's signature, and "all" for a
    blank mode; a reminder is due after the interval, a day if there is none, and a node without a
    timeout of its own gets the run's, or three days.
   */
  lemma {:induction false} RunStarts(input: Input, at: int, done: int, i: nat)
    requires ValidInput(input) && i < |input.nodes|
    ensures var s, n := Begin(input, at, done), input.nodes[i];
            && |s.nodes| == |input.nodes| && s.current == 0 && s.status == Running && s.completions == [] && s.processed == [] && !s.failed
            && s.nodes[i].status == (if i == 0 then Active else Pending) && s.nodes[i].approvedBy == {} && s.nodes[i].added == []
            && s.nodes[i].node == (if n.countersign == "" then n.(countersign := "all") else n)
            && s.interval == (if input.interval > 0 then input.interval else 86400) && s.nextReminder == done + s.interval
            && s.applicant == input.applicant
            && Deadline(s) == at + if input.nodes[0].timeout > 0 then input.nodes[0].timeout
                                   else if input.defaultTimeout > 0 then input.defaultTimeout else 259200
  {
  }

  // ----- What is not heard -----

  /** A signal without an id or an actor, one that has to give a reason and does not, and a repeated one change nothing. */
  lemma {:induction false} UnheardIgnored(s: State, e: Event)
    requires e.Signal?
    requires || e.command.id == "" || e.command.actor == "" || e.command.id in s.processed
             || (e.command.action in {Reject, AddSign, Transfer, Return, Withdraw} && e.command.comment == "")
    ensures Step(s, e) == s
  {
    hide Apply;
  }

  /** No other reason is asked for: whatever else is left out, the command is looked at. */
  lemma {:induction false} WellFormedExactly(c: Command)
    ensures Malformed(c) <==> c.id == "" || c.actor == "" || (c.comment == "" && c.action !in {Approve, Urge, Comment, Unsupported})
  {
    assert c.action.Approve? || c.action.Urge? || c.action.Comment? || c.action.Unsupported?
        || c.action in {Reject, AddSign, Transfer, Return, Withdraw};
  }

  /** When the record of an effective command fails, the run has failed, and reports nothing. */
  lemma {:induction false} UnrecordedFails(s: State, e: Event)
    requires Live(s) && e.Signal? && !Ignored(s, e.command) && !e.recorded
    ensures Step(s, e).failed && Step(s, e).Ended() && Step(s, e).completions == s.completions
  {
    hide Malformed, Passed, Unique, AppendAbsent, ReplaceFirst, Historic;
  }

  /** When the completion fails, the run has failed with nothing reported; nothing more is heard then. */
  lemma {:induction false} UncompletedFails(s: State, e: Event)
    requires Live(s) && e.Signal? && !Ignored(s, e.command) && e.recorded && !e.completed
    ensures Step(s, e).completions == s.completions
    ensures Step(s, e).status != Running ==> Step(s, e).failed
  {
    hide Malformed, Passed, Unique, AppendAbsent, ReplaceFirst, Historic;
  }

  // ----- Approvals -----

  /**
    An approval that suffices closes the node, signed by its actor, and the next node becomes active at
    the time of the signal; after the last node the run is approved and reports an active contract.
   */
  lemma {:induction false} ClosingStep(s: State, e: Event, i: nat)
    requires Closes(s, e, i) && e.recorded
    ensures var t, n := Step(s, e), s.nodes[i];
            && |t.nodes| == |s.nodes| && t.current == i + 1 && t.processed == s.processed + [e.command.id]
            && t.nodes[i] == n.(status := Approved, approvedBy := n.approvedBy + {e.command.actor}, completedAt := e.command.occurredAt)
            && (forall k :: 0 <= k < |s.nodes| && k != i && k != i + 1 ==> t.nodes[k] == s.nodes[k])
            && t.applicant == s.applicant && t.interval == s.interval && t.defaultTimeout == s.defaultTimeout
            && (i + 1 < |s.nodes| ==>
                  && t.nodes[i + 1] == s.nodes[i + 1].(status := Active, startedAt := e.at)
                  && t.status == Running && !t.failed && t.completions == s.completions && t.nextReminder == e.done + s.interval)
            && (i + 1 == |s.nodes| ==>
                  && t.status == AllApproved && t.failed == !e.completed
                  && t.completions == s.completions + (if e.completed then [Completion(AllApproved, ActiveContract)] else []))
  {
    hide Passed, Malformed;
    assert s.completions + [] == s.completions;
  }

  /** A node becomes approved in a step exactly when an approval closes it. */
  lemma {:induction false} ApprovedExactly(s: State, e: Event, i: nat)
    requires Positioned(s) && i < |s.nodes| == |Step(s, e).nodes| && s.nodes[i].status != Approved
    ensures Step(s, e).nodes[i].status == Approved <==> Closes(s, e, i)
  {
    StepOnNode(s, e, i);
    if Closes(s, e, i) {
      hide Passed, Malformed;
    }
  }

  /** An approval that does not suffice adds a signature; one by the applicant or by no assignee changes nothing. */
  lemma {:induction false} SigningStep(s: State, e: Event)
    requires Heard(s, e) && e.command.action == Approve && !Closes(s, e, s.current)
    ensures var n := s.nodes[s.current];
            Step(s, e) == if e.command.actor == s.applicant || e.command.actor !in n.node.assignees then s
                          else Processed(WithNode(s, n.(approvedBy := n.approvedBy + {e.command.actor})), e)
  {
    hide Passed, Malformed;
  }

  // ----- Ends -----

  /** A rejection by an assignee declines the run and rejects the node; the contract goes back to draft. */
  lemma {:induction false} RejectEnds(s: State, e: Event)
    requires Heard(s, e) && e.command.action == Reject
    ensures Step(s, e) == if ByAssignee(s, e) then
                            Processed(WithNode(s, s.nodes[s.current].(status := NodeStatus.Rejected)), e)
                              .(status := Declined, completions := s.completions + [Completion(Declined, DraftContract)])
                          else s
  {
    hide Malformed;
  }

  /** A withdrawal by the applicant, and by nobody else, ends the run and leaves every node as it is. */
  lemma {:induction false} WithdrawEnds(s: State, e: Event)
    requires Heard(s, e) && e.command.action == Withdraw
    ensures Step(s, e) == if e.command.actor == s.applicant then
                            Processed(s, e).(status := RunStatus.Withdrawn, completions := s.completions + [Completion(RunStatus.Withdrawn, DraftContract)])
                          else s
  {
    hide Malformed;
  }

  /** At its deadline the run expires; a reminder due before it only sets the next one. The node's own timeout counts, if it has one. */
  lemma {:induction false} TimerActs(s: State, e: Event)
    requires Live(s) && e.Wake? && e.completed
    ensures var n := s.nodes[s.current];
            var deadline := n.startedAt + if n.node.timeout > 0 then n.node.timeout else s.defaultTimeout;
            && Deadline(s) == deadline
            && (e.at >= deadline ==> Step(s, e) == s.(status := Expired, completions := s.completions + [Completion(Expired, DraftContract)]))
            && (e.at < deadline ==> Step(s, e) == if e.at >= s.nextReminder then s.(nextReminder := e.at + s.interval) else s)
  {
  }

  /** Urging and commenting are open to everybody and only recorded. */
  lemma {:induction false} TalkChangesNothing(s: State, e: Event)
    requires Heard(s, e) && e.command.action in {Urge, Comment}
    ensures Step(s, e) == Processed(s, e)
  {
    hide Malformed;
  }

  // ----- Rosters -----

  /** The first place of a in the list. */
  predicate FirstPlace(list: seq<string>, a: string, k: nat) {
    k < |list| && list[k] == a && forall j :: 0 <= j < k ==> list[j] != a
  }

  lemma {:induction false} ReplacedOnce(list: seq<string>, a: string, b: string, k: nat)
    requires FirstPlace(list, a, k)
    ensures ReplaceFirst(list, a, b) == list[k := b]
  {
    if k > 0 {
      ReplacedOnce(list[1..], a, b, k - 1);
      assert list == [list[0]] + list[1..];
    }
  }

  lemma {:induction false} PlaceOf(list: seq<string>, a: string) returns (k: nat)
    requires a in list
    ensures FirstPlace(list, a, k)
  {
    if list[0] == a {
      k := 0;
    } else {
      k := PlaceOf(list[1..], a);
      k := k + 1;
    }
  }

  lemma {:induction false} NotReplaced(list: seq<string>, a: string, b: string)
    requires a !in list
    ensures ReplaceFirst(list, a, b) == list
  {
    if list != [] {
      NotReplaced(list[1..], a, b);
    }
  }

  /** The one name a transfer or the names an add-sign is for. */
  ghost predicate Named(c: Command, names: seq<string>) {
    (forall u :: u in names <==> u in c.targets && u != "") && forall i, j :: 0 <= i < j < |names| ==> names[i] != names[j]
  }

  lemma {:induction false} UniqueNames(values: seq<string>)
    ensures forall u :: u in Unique(values) <==> u in values && u != ""
    ensures forall i, j :: 0 <= i < j < |Unique(values)| ==> Unique(values)[i] != Unique(values)[j]
  {
    if values != [] {
      UniqueNames(values[..|values| - 1]);
      assert values == values[..|values| - 1] + [values[|values| - 1]];
    }
  }

  /**
    A transfer is refused unless it names one person and, if it names a node, this one; it puts that person in
    the actor's first place among the assignees and, if he was one, the added signers, and drops the
    actor's signature.
   */
  lemma {:induction false} TransferHandsOver(s: State, e: Event) returns (k: nat, added: seq<string>)
    requires Heard(s, e) && e.command.action == Transfer && ByAssignee(s, e)
    ensures Named(e.command, Unique(e.command.targets)) && FirstPlace(s.nodes[s.current].node.assignees, e.command.actor, k)
    ensures var n, c := s.nodes[s.current], e.command;
            var names := Unique(c.targets);
            if (c.targetNode == "" || c.targetNode == n.node.id) && |names| == 1 then
              && HandedTo(n.added, c.actor, names[0], added)
              && Step(s, e) == Processed(WithNode(s, n.(node := n.node.(assignees := n.node.assignees[k := names[0]]),
                                                        added := added, approvedBy := n.approvedBy - {c.actor})), e)
            else Step(s, e) == s
  {
    hide Malformed, Unique;
    var n, c := s.nodes[s.current], e.command;
    UniqueNames(c.targets);
    k := PlaceOf(n.node.assignees, c.actor);
    added := n.added;
    if |Unique(c.targets)| == 1 {
      var u := Unique(c.targets)[0];
      added := ReplaceFirst(n.added, c.actor, u);
      ReplacedOnce(n.node.assignees, c.actor, u, k);
      HandedOver(n.added, c.actor, u);
    }
    hide ReplaceFirst, FirstPlace, HandedTo;
  }

  /** The first place of a, if there is one, has gone to b. */
  predicate HandedTo(list: seq<string>, a: string, b: string, after: seq<string>) {
    if a in list then exists j :: 0 <= j < |list| && FirstPlace(list, a, j) && after == list[j := b] else after == list
  }

  lemma {:induction false} HandedOver(list: seq<string>, a: string, b: string)
    ensures HandedTo(list, a, b, ReplaceFirst(list, a, b))
  {
    if a in list {
      var j := PlaceOf(list, a);
      ReplacedOnce(list, a, b, j);
    } else {
      NotReplaced(list, a, b);
    }
  }

  /** The list has grown at its end by exactly the names it lacked. */
  ghost predicate Joined(list: seq<string>, names: seq<string>, longer: seq<string>) {
    && list <= longer
    && (forall u :: u in longer <==> u in list || u in names)
    && |longer| == |list| + |set u | u in names && u !in list|
  }

  lemma {:induction false} AppendedJoins(list: seq<string>, names: seq<string>)
    ensures Joined(list, names, AppendAbsent(list, names))
  {
    if names == [] {
      assert (set u | u in names && u !in list) == {};
    } else {
      var front, last := names[..|names| - 1], names[|names| - 1];
      AppendedJoins(list, front);
      assert names == front + [last];
      var a, b := set u | u in front && u !in list, set u | u in names && u !in list;
      if last in AppendAbsent(list, front) {
        assert a == b;
      } else {
        assert last !in a && b == a + {last};
      }
    }
  }

  /** An add-sign is refused without names or a mode; it lists the names among assignees and added signers, sets the mode, and signs for its actor. */
  lemma {:induction false} AddSignAdds(s: State, e: Event)
    requires Heard(s, e) && e.command.action == AddSign && ByAssignee(s, e)
    ensures var n, c, t := s.nodes[s.current], e.command, Step(s, e);
            && Named(c, Unique(c.targets))
            && (if Unique(c.targets) != [] && c.countersign in ["all", "any"] then
                  && s.current < |t.nodes| && t == Processed(WithNode(s, t.nodes[s.current]), e)
                  && var m := t.nodes[s.current];
                     && m == n.(node := n.node.(assignees := m.node.assignees, countersign := c.countersign), added := m.added,
                                approvedBy := n.approvedBy + {c.actor})
                     && Joined(n.node.assignees, Unique(c.targets), m.node.assignees) && Joined(n.added, Unique(c.targets), m.added)
                else t == s)
  {
    hide Malformed, Unique, AppendAbsent, Joined;
    UniqueNames(e.command.targets);
    AppendedJoins(s.nodes[s.current].node.assignees, Unique(e.command.targets));
    AppendedJoins(s.nodes[s.current].added, Unique(e.command.targets));
  }

  // ----- Returns -----

  /**
    A return goes to the first approved node before the current one with the id it names, and is refused
    if there is none: that node becomes active, those after it up to the current one pending, all of them
    without signatures; rosters stay.
   */
  lemma {:induction false} ReturnReopens(s: State, e: Event, target: nat)
    requires Heard(s, e) && e.command.action == Return && ByAssignee(s, e)
    requires target < s.current && ReturnTarget(s, e.command.targetNode, target)
    ensures var t := Step(s, e);
            && |t.nodes| == |s.nodes| && t.current == target && t.status == Running && !t.failed && t.completions == s.completions
            && t.nodes[target] == Reset(s.nodes[target]).(status := Active, startedAt := e.at)
            && (forall k :: target < k <= s.current ==> t.nodes[k] == Reset(s.nodes[k]))
            && (forall k :: 0 <= k < |s.nodes| && (k < target || k > s.current) ==> t.nodes[k] == s.nodes[k])
            && t.nextReminder == e.done + s.interval && t.processed == s.processed + [e.command.id]
  {
    hide Malformed;
    HistoricIs(s, e.command.targetNode, 0, target);
    hide Historic;
  }

  lemma {:induction false} HistoricIs(s: State, id: string, i: nat, target: nat)
    requires i <= target < s.current < |s.nodes| && ReturnTarget(s, id, target)
    ensures Historic(s.nodes, id, i, s.current) == target
    decreases target - i
  {
    if i < target {
      HistoricIs(s, id, i + 1, target);
    }
  }

  /** Without such a node a return is refused. */
  lemma {:induction false} ReturnRefused(s: State, e: Event)
    requires Heard(s, e) && e.command.action == Return
    requires !ByAssignee(s, e) || forall k :: 0 <= k < s.current ==> !ReturnTarget(s, e.command.targetNode, k)
    ensures Step(s, e) == s
  {
    hide Malformed;
    if ByAssignee(s, e) {
      NoneHistoric(s, e.command.targetNode);
    }
    hide Historic;
  }

  lemma {:induction false} NoneHistoric(s: State, id: string)
    requires s.current < |s.nodes| && forall k :: 0 <= k < s.current ==> !ReturnTarget(s, id, k)
    ensures Historic(s.nodes, id, 0, s.current) == s.current
  {
    NoneFrom(s, id, 0);
  }

  lemma {:induction false} NoneFrom(s: State, id: string, i: nat)
    requires i <= s.current < |s.nodes| && forall k :: 0 <= k < s.current ==> !ReturnTarget(s, id, k)
    requires forall k :: 0 <= k < i ==> s.nodes[k].node.id != id || s.nodes[k].status != Approved
    ensures Historic(s.nodes, id, i, s.current) == s.current
    decreases s.current - i
  {
    if i < s.current {
      assert !ReturnTarget(s, id, i);
      NoneFrom(s, id, i + 1);
    }
  }

  predicate ReturnTarget(s: State, id: string, target: nat) {
    && target < |s.nodes| && s.nodes[target].node.id == id && s.nodes[target].status == Approved
    && forall k :: 0 <= k < target ==> s.nodes[k].node.id != id || s.nodes[k].status != Approved
  }
}

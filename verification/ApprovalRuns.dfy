/**
  What holds over every run of the approval workflow, for any stream of signals and timer wake-ups.
 */
module ApprovalRuns {
  import opened Approval

  function Run(s: State, events: seq<Event>): State {
    if events == [] then s else Step(Run(s, events[..|events| - 1]), events[|events| - 1])
  }

  predicate Live(s: State) {
    !s.Ended() && s.current < |s.nodes|
  }

  // ----- Where a run stands -----

  /** Approved nodes, then the current one, then pending ones; and what was reported as the outcome. */
  predicate Positioned(s: State) {
    && s.nodes != [] && s.current <= |s.nodes|
    && (forall i :: 0 <= i < s.current ==> s.nodes[i].status == Approved)
    && (forall i :: s.current < i < |s.nodes| ==> s.nodes[i].status == Pending)
    && (s.current < |s.nodes| ==> s.nodes[s.current].status == if s.status == Declined then NodeStatus.Rejected else Active)
    && (s.status == AllApproved ==> s.current == |s.nodes|)
    && (s.current == |s.nodes| ==> s.status == AllApproved || (s.failed && s.status == Running))
  }

  function TargetOf(status: RunStatus): ContractStatus {
    if status == AllApproved then ActiveContract else DraftContract
  }

  /** A run reports its outcome once, when it ends for any reason but a failed activity. */
  predicate Reported(s: State) {
    if s.status == Running || s.failed then s.completions == []
    else s.completions == [Completion(s.status, TargetOf(s.status))]
  }

  lemma ApplyKeepsPosition(s: State, c: Command)
    requires Live(s) && Positioned(s) && Apply(s, c).Changed?
    ensures var v := Apply(s, c);
            && |v.s.nodes| == |s.nodes| && v.s.current <= |s.nodes| && v.s.completions == s.completions && !v.s.failed
            && (v.terminal <==> v.s.status != Running) && (v.terminal ==> v.s.status in {Declined, RunStatus.Withdrawn} && Positioned(v.s))
            && (v.s.current == s.current && !v.terminal ==> Positioned(v.s))
            && (forall i :: 0 <= i < v.s.current ==> v.s.nodes[i].status == Approved)
            && (forall i :: v.s.current < i < |s.nodes| ==> v.s.nodes[i].status == Pending)
  {
    hide Passed, Unique, AppendAbsent, ReplaceFirst, Historic;
  }

  lemma StepKeepsPosition(s: State, e: Event)
    requires Positioned(s) && Reported(s)
    ensures Positioned(Step(s, e)) && Reported(Step(s, e)) && |Step(s, e).nodes| == |s.nodes|
  {
    hide Apply, Malformed;
    if Live(s) && e.Signal? && !Ignored(s, e.command) {
      ApplyKeepsPosition(s, e.command);
    }
  }

  /** In every run: approved before the current node, pending after it, and one report at the end. */
  lemma {:induction false} PositionHolds(input: Input, at: int, done: int, events: seq<Event>)
    requires ValidInput(input)
    ensures var s := Run(Begin(input, at, done), events);
            Positioned(s) && Reported(s) && |s.nodes| == |input.nodes|
  {
    hide Step;
    if events != [] {
      PositionHolds(input, at, done, events[..|events| - 1]);
      StepKeepsPosition(Run(Begin(input, at, done), events[..|events| - 1]), events[|events| - 1]);
    }
  }

  predicate Succeeds(e: Event) {
    e.completed && (e.Signal? ==> e.recorded)
  }

  lemma StepSucceeds(s: State, e: Event)
    requires !s.failed && Succeeds(e)
    ensures !Step(s, e).failed
  {
    hide Malformed, Passed, Unique, AppendAbsent, ReplaceFirst, Historic;
  }

  lemma {:induction false} FailsByActivity(s: State, events: seq<Event>)
    requires !s.failed && forall k :: 0 <= k < |events| ==> Succeeds(events[k])
    ensures !Run(s, events).failed
  {
    hide Step, Succeeds;
    if events != [] {
      var front := events[..|events| - 1];
      assert forall k :: 0 <= k < |front| ==> front[k] == events[k];
      FailsByActivity(s, front);
      StepSucceeds(Run(s, front), events[|events| - 1]);
    }
  }

  /**
    Approved means every node approved; and unless an activity fails, a run has reported exactly one
    completion once it has ended and none before, active exactly for approval.
   */
  lemma OutcomeReported(input: Input, at: int, done: int, events: seq<Event>)
    requires ValidInput(input)
    ensures var s := Run(Begin(input, at, done), events);
            && (s.status == AllApproved ==> forall i :: 0 <= i < |s.nodes| ==> s.nodes[i].status == Approved)
            && |s.completions| <= 1
            && (forall c :: c in s.completions ==> c.status == s.status != Running && (c.target == ActiveContract <==> s.status == AllApproved))
            && ((forall k :: 0 <= k < |events| ==> Succeeds(events[k])) ==> (s.Ended() <==> |s.completions| == 1))
  {
    PositionHolds(input, at, done, events);
    if forall k :: 0 <= k < |events| ==> Succeeds(events[k]) {
      FailsByActivity(Begin(input, at, done), events);
    }
  }

  // ----- Who closed a node -----

  /** An approval by somebody other than the applicant, a current assignee, that makes node i pass. */
  predicate Closes(s: State, e: Event, i: nat) {
    && Live(s) && s.current == i && e.Signal? && !Ignored(s, e.command)
    && e.command.action == Approve
    && e.command.actor in s.nodes[i].node.assignees
    && e.command.actor != s.applicant
    && Passed(s.nodes[i].(approvedBy := s.nodes[i].approvedBy + {e.command.actor}), e.command.roleNodeOrSign)
  }

  lemma ApplyOnNode(s: State, c: Command, i: nat)
    requires Live(s) && Positioned(s) && i < |s.nodes| && Apply(s, c).Changed?
    ensures var s' := Apply(s, c).s;
            && |s'.nodes| == |s.nodes|
            && (s'.current != s.current && s'.current < |s.nodes| ==> s'.nodes[s'.current].status != Approved)
            && (s.nodes[i].status == Approved ==> s'.nodes[i] == s.nodes[i] || s'.nodes[i].status != Approved)
            && (s.nodes[i].status != Approved && s'.nodes[i].status == Approved ==>
                  && s.current == i && c.action == Approve && c.actor in s.nodes[i].node.assignees && c.actor != s.applicant
                  && Passed(s.nodes[i].(approvedBy := s.nodes[i].approvedBy + {c.actor}), c.roleNodeOrSign)
                  && s'.nodes[i].approvedBy == s.nodes[i].approvedBy + {c.actor})
  {
    hide Passed, Unique, AppendAbsent, ReplaceFirst, Historic;
  }

  lemma StepOnNode(s: State, e: Event, i: nat)
    requires Positioned(s) && i < |s.nodes| == |Step(s, e).nodes|
    ensures s.nodes[i].status == Approved ==> Step(s, e).nodes[i] == s.nodes[i] || Step(s, e).nodes[i].status != Approved
    ensures s.nodes[i].status != Approved && Step(s, e).nodes[i].status == Approved ==>
              Closes(s, e, i) && Step(s, e).nodes[i].approvedBy == s.nodes[i].approvedBy + {e.command.actor}
  {
    hide Passed, Apply, Malformed, Positioned;
    if Live(s) && e.Signal? && !Ignored(s, e.command) {
      ApplyOnNode(s, e.command, i);
    }
  }

  /**
    Separation of duty: every approved node was closed, since its last reset, by an approval of a
    then-current assignee who is not the applicant; nothing about the node has changed since.
   */
  lemma {:induction false} ClosedByAnother(input: Input, at: int, done: int, events: seq<Event>, i: nat) returns (k: nat)
    requires ValidInput(input) && i < |input.nodes|
    requires |Run(Begin(input, at, done), events).nodes| == |input.nodes|
    requires Run(Begin(input, at, done), events).nodes[i].status == Approved
    ensures k < |events|
    ensures Closes(Run(Begin(input, at, done), events[..k]), events[k], i)
    ensures Run(Begin(input, at, done), events[..k]).applicant == input.applicant
    ensures forall j :: k < j <= |events| ==>
              && |Run(Begin(input, at, done), events[..j]).nodes| == |input.nodes|
              && Run(Begin(input, at, done), events[..j]).nodes[i] == Run(Begin(input, at, done), events).nodes[i]
    decreases |events|
  {
    hide Step, Closes, Begin, Positioned, Reported;
    var s := Begin(input, at, done);
    NothingApprovedAtFirst(input, at, done, i);
    assert events != [];
    var front, e := events[..|events| - 1], events[|events| - 1];
    var s' := Run(s, front);
    PositionHolds(input, at, done, front);
    PositionHolds(input, at, done, events);
    StepOnNode(s', e, i);
    Fixed(input, at, done, front);
    assert events[..|events|] == events;
    if s'.nodes[i].status == Approved {
      k := ClosedByAnother(input, at, done, front, i);
      assert front[..k] == events[..k];
      forall j | k < j <= |events|
        ensures |Run(s, events[..j]).nodes| == |input.nodes| && Run(s, events[..j]).nodes[i] == Run(s, events).nodes[i]
      {
        if j < |events| {
          assert events[..j] == front[..j];
        }
      }
    } else {
      k := |events| - 1;
    }
  }

  lemma NothingApprovedAtFirst(input: Input, at: int, done: int, i: nat)
    requires ValidInput(input) && i < |input.nodes|
    ensures |Begin(input, at, done).nodes| == |input.nodes| && Begin(input, at, done).nodes[i].status != Approved
  {
  }

  lemma StepFixes(s: State, e: Event)
    ensures Step(s, e).applicant == s.applicant && Step(s, e).interval == s.interval
  {
    hide Malformed, Passed, Unique, AppendAbsent, ReplaceFirst, Historic;
  }

  lemma {:induction false} Fixed(input: Input, at: int, done: int, events: seq<Event>)
    requires ValidInput(input)
    ensures var s := Run(Begin(input, at, done), events); s.applicant == input.applicant && s.interval > 0
  {
    hide Step;
    if events != [] {
      Fixed(input, at, done, events[..|events| - 1]);
      StepFixes(Run(Begin(input, at, done), events[..|events| - 1]), events[|events| - 1]);
    }
  }

  // ----- The roster -----

  /** Added signers are assignees, counted with repetitions; only assignees have signed. */
  predicate RosterOk(n: Runtime) {
    && multiset(n.added) <= multiset(n.node.assignees)
    && forall u :: u in n.approvedBy ==> u in n.node.assignees
  }

  predicate RostersOk(s: State) {
    forall i :: 0 <= i < |s.nodes| ==> RosterOk(s.nodes[i])
  }

  lemma {:induction false} ReplacedMultiset(list: seq<string>, a: string, b: string)
    ensures multiset(ReplaceFirst(list, a, b)) == if a in list then multiset(list) - multiset{a} + multiset{b} else multiset(list)
    ensures forall u :: u in list && u != a ==> u in ReplaceFirst(list, a, b)
  {
    if list != [] {
      var rest := list[1..];
      assert list == [list[0]] + rest;
      assert multiset(list) == multiset{list[0]} + multiset(rest);
      if list[0] == a {
        assert multiset([b] + rest) == multiset{b} + multiset(rest);
      } else {
        ReplacedMultiset(rest, a, b);
        assert multiset([list[0]] + ReplaceFirst(rest, a, b)) == multiset{list[0]} + multiset(ReplaceFirst(rest, a, b));
      }
    }
  }

  lemma TransferKeepsRoster(added: seq<string>, assignees: seq<string>, a: string, b: string)
    requires multiset(added) <= multiset(assignees)
    ensures multiset(ReplaceFirst(added, a, b)) <= multiset(ReplaceFirst(assignees, a, b))
  {
    ReplacedMultiset(added, a, b);
    ReplacedMultiset(assignees, a, b);
    assert a in added ==> multiset(assignees)[a] >= multiset(added)[a] > 0;
  }

  lemma {:induction false} AddSignKeepsRoster(added: seq<string>, assignees: seq<string>, targets: seq<string>)
    requires multiset(added) <= multiset(assignees)
    ensures multiset(AppendAbsent(added, targets)) <= multiset(AppendAbsent(assignees, targets))
    ensures forall u :: u in assignees ==> u in AppendAbsent(assignees, targets)
  {
    if targets != [] {
      var front, t := targets[..|targets| - 1], targets[|targets| - 1];
      AddSignKeepsRoster(added, assignees, front);
      var a, b := AppendAbsent(added, front), AppendAbsent(assignees, front);
      assert t !in a ==> multiset(a)[t] == 0;
      assert t in b ==> multiset(b)[t] > 0;
    }
  }

  lemma ApplyKeepsRoster(s: State, c: Command)
    requires Live(s) && RosterOk(s.nodes[s.current]) && Apply(s, c).Changed? && c.action != Return
    ensures |Apply(s, c).s.nodes| == |s.nodes| && RosterOk(Apply(s, c).s.nodes[s.current])
    ensures forall i :: 0 <= i < |s.nodes| && i != s.current ==> Apply(s, c).s.nodes[i] == s.nodes[i]
  {
    hide Passed, Unique, Historic, AppendAbsent, ReplaceFirst;
    var n := s.nodes[s.current];
    if c.action == AddSign && c.actor in n.node.assignees {
      AddSignKeepsRoster(n.added, n.node.assignees, Unique(c.targets));
    } else if c.action == Transfer && c.actor in n.node.assignees {
      TransferKeepsRoster(n.added, n.node.assignees, c.actor, Unique(c.targets)[0]);
      ReplacedMultiset(n.node.assignees, c.actor, Unique(c.targets)[0]);
    }
  }

  lemma StepKeepsRosters(s: State, e: Event)
    requires RostersOk(s) && s.current <= |s.nodes|
    ensures RostersOk(Step(s, e))
  {
    hide Passed, Unique, AppendAbsent, ReplaceFirst, Historic, Malformed, RosterOk;
    if Live(s) && e.Signal? && !Ignored(s, e.command) {
      var c := e.command;
      if c.action == Return {
        ResetKeepsRoster();
      } else {
        ApplyKeepsRoster(s, c);
      }
      StatusNotRoster();
    }
  }

  lemma ResetKeepsRoster()
    ensures forall n: Runtime :: RosterOk(n) ==> RosterOk(Reset(n))
  {
  }

  lemma StatusNotRoster()
    ensures forall n: Runtime, t: int :: RosterOk(n) ==> RosterOk(n.(status := Active, startedAt := t))
  {
  }

  /** In every run, added signers are a sub-multiset of the assignees and only assignees have signed. */
  lemma {:induction false} RosterHolds(input: Input, at: int, done: int, events: seq<Event>)
    requires ValidInput(input)
    ensures RostersOk(Run(Begin(input, at, done), events))
  {
    hide Step, RosterOk;
    if events == [] {
      EmptyRosters();
    } else {
      PositionHolds(input, at, done, events[..|events| - 1]);
      RosterHolds(input, at, done, events[..|events| - 1]);
      StepKeepsRosters(Run(Begin(input, at, done), events[..|events| - 1]), events[|events| - 1]);
    }
  }

  lemma EmptyRosters()
    ensures forall n: Runtime :: n.added == [] && n.approvedBy == {} ==> RosterOk(n)
  {
    assert forall n: Runtime :: n.added == [] ==> multiset(n.added) == multiset{};
  }

  /** An approval or an add-sign by u, a then-current assignee of the current node i. */
  predicate Signs(s: State, e: Event, i: nat, u: string) {
    && Live(s) && s.current == i && e.Signal? && !Ignored(s, e.command)
    && e.command.action in {Approve, AddSign} && e.command.actor == u && u in s.nodes[i].node.assignees
  }

  lemma StepSigns(s: State, e: Event, i: nat, u: string)
    requires i < |s.nodes| == |Step(s, e).nodes| && u !in s.nodes[i].approvedBy && u in Step(s, e).nodes[i].approvedBy
    ensures Signs(s, e, i, u)
  {
    hide Passed, Unique, AppendAbsent, ReplaceFirst, Historic, Malformed;
  }

  /** Whoever counts as having signed a node did so since its last reset, as an assignee of the time. */
  lemma {:induction false} SignedSinceReset(input: Input, at: int, done: int, events: seq<Event>, i: nat, u: string) returns (k: nat)
    requires ValidInput(input) && i < |input.nodes|
    requires |Run(Begin(input, at, done), events).nodes| == |input.nodes|
    requires u in Run(Begin(input, at, done), events).nodes[i].approvedBy
    ensures k < |events|
    ensures Signs(Run(Begin(input, at, done), events[..k]), events[k], i, u)
    ensures forall j :: k < j <= |events| ==>
              && |Run(Begin(input, at, done), events[..j]).nodes| == |input.nodes|
              && u in Run(Begin(input, at, done), events[..j]).nodes[i].approvedBy
    decreases |events|
  {
    hide Step, Signs, Begin, Positioned, Reported;
    var s := Begin(input, at, done);
    NobodySignedAtFirst(input, at, done, i);
    assert events != [];
    var front := events[..|events| - 1];
    PositionHolds(input, at, done, front);
    assert events[..|events|] == events;
    if u in Run(s, front).nodes[i].approvedBy {
      k := SignedSinceReset(input, at, done, front, i, u);
      assert front[..k] == events[..k];
      forall j | k < j <= |events|
        ensures |Run(s, events[..j]).nodes| == |input.nodes| && u in Run(s, events[..j]).nodes[i].approvedBy
      {
        if j < |events| {
          assert events[..j] == front[..j];
        }
      }
    } else {
      k := |events| - 1;
      StepSigns(Run(s, front), events[k], i, u);
    }
  }

  lemma NobodySignedAtFirst(input: Input, at: int, done: int, i: nat)
    requires ValidInput(input) && i < |input.nodes|
    ensures |Begin(input, at, done).nodes| == |input.nodes| && Begin(input, at, done).nodes[i].approvedBy == {}
  {
  }

  /** In the run so far, u signed node i as an assignee and has counted as a signer ever since. */
  predicate SignedIn(s: State, events: seq<Event>, i: nat, u: string) {
    exists k :: 0 <= k < |events| && SignedAt(s, events, i, u, k)
  }

  predicate SignedAt(s: State, events: seq<Event>, i: nat, u: string, k: nat)
    requires k < |events|
  {
    && Signs(Run(s, events[..k]), events[k], i, u)
    && forall j :: k < j <= |events| ==> i < |Run(s, events[..j]).nodes| && u in Run(s, events[..j]).nodes[i].approvedBy
  }

  /** Everyone who counts as a signer of node i did sign it since its last reset. */
  lemma AllSigned(input: Input, at: int, done: int, events: seq<Event>, i: nat)
    requires ValidInput(input) && i < |input.nodes|
    ensures var s := Run(Begin(input, at, done), events);
            |s.nodes| == |input.nodes| && forall u :: u in s.nodes[i].approvedBy ==> SignedIn(Begin(input, at, done), events, i, u)
  {
    hide Run, Begin, Signs, SignedAt, Positioned, Reported;
    PositionHolds(input, at, done, events);
    var s := Begin(input, at, done);
    forall u | u in Run(s, events).nodes[i].approvedBy ensures SignedIn(s, events, i, u) {
      OneSigned(input, at, done, events, i, u);
    }
  }

  lemma OneSigned(input: Input, at: int, done: int, events: seq<Event>, i: nat, u: string)
    requires ValidInput(input) && i < |input.nodes| == |Run(Begin(input, at, done), events).nodes|
    requires u in Run(Begin(input, at, done), events).nodes[i].approvedBy
    ensures SignedIn(Begin(input, at, done), events, i, u)
  {
    hide Run, Begin, Signs;
    var k := SignedSinceReset(input, at, done, events, i, u);
    assert SignedAt(Begin(input, at, done), events, i, u, k);
  }

  /** Who has to have signed a node in a run for the command to close it. */
  predicate Sufficient(s: State, events: seq<Event>, i: nat, n: Runtime, c: Command) {
    && SignedIn(s, events, i, c.actor)
    && if n.added == [] then
         n.node.countersign == "any" || c.roleNodeOrSign || forall u :: u in n.node.assignees ==> SignedIn(s, events, i, u)
       else
         && (exists u :: u in n.node.assignees && u !in n.added && SignedIn(s, events, i, u))
         && if n.node.countersign == "any" then exists u :: u in n.added && SignedIn(s, events, i, u)
            else forall u :: u in n.added ==> SignedIn(s, events, i, u)
  }

  /**
    In every run an approved node was closed by an approval of somebody other than the applicant, and
    only once enough had signed it since its last reset: with added signers an original assignee and,
    by mode, one or all of the added ones; without, everybody unless the mode or the role lets one do.
   */
  lemma ClosedBySigners(input: Input, at: int, done: int, events: seq<Event>, i: nat) returns (k: nat)
    requires ValidInput(input) && i < |Run(Begin(input, at, done), events).nodes|
    requires Run(Begin(input, at, done), events).nodes[i].status == Approved
    ensures k < |events| && Closes(Run(Begin(input, at, done), events[..k]), events[k], i)
    ensures Sufficient(Begin(input, at, done), events, i, Run(Begin(input, at, done), events).nodes[i], events[k].command)
  {
    hide Run, Begin, Step, Closes, Positioned, Reported, SignedIn;
    PositionHolds(input, at, done, events);
    k := ClosedByAnother(input, at, done, events, i);
    PositionHolds(input, at, done, events[..k]);
    PositionHolds(input, at, done, events[..k + 1]);
    RunOneMore(Begin(input, at, done), events, k);
    ClosingSigns(Run(Begin(input, at, done), events[..k]), events[k], i);
    AllSigned(input, at, done, events, i);
  }

  lemma RunOneMore(s: State, events: seq<Event>, k: nat)
    requires k < |events|
    ensures Run(s, events[..k + 1]) == Step(Run(s, events[..k]), events[k])
  {
    hide Step;
    assert events[..k + 1][..k] == events[..k];
  }

  /** The command that closes a node leaves it signed by its actor, and passed. */
  lemma ClosingSigns(s: State, e: Event, i: nat)
    requires Closes(s, e, i) && Positioned(s) && i < |Step(s, e).nodes|
    ensures var n := Step(s, e).nodes[i]; e.command.actor in n.approvedBy && Passed(n, e.command.roleNodeOrSign)
  {
    var n := s.nodes[i];
    var signed := n.(approvedBy := n.approvedBy + {e.command.actor});
    PassedUnmoved(signed, signed.(status := Approved, completedAt := e.command.occurredAt), e.command.roleNodeOrSign);
    hide Passed, Unique, AppendAbsent, ReplaceFirst, Historic;
  }

  lemma PassedUnmoved(n: Runtime, m: Runtime, role: bool)
    requires m.node == n.node && m.added == n.added && m.approvedBy == n.approvedBy
    ensures Passed(m, role) == Passed(n, role)
  {
  }

  // ----- Redelivered and refused signals -----

  predicate Effective(s: State, e: Event) {
    Live(s) && e.Signal? && !Ignored(s, e.command)
  }

  lemma EffectiveRecorded(s: State, e: Event)
    ensures Effective(s, e) ==> Step(s, e).processed == s.processed + [e.command.id] && e.command.id !in s.processed
    ensures !Effective(s, e) ==> Step(s, e).processed == s.processed
    ensures !Effective(s, e) && e.Signal? ==> Step(s, e) == s
  {
    hide Passed, Unique, AppendAbsent, ReplaceFirst, Historic, Malformed;
  }

  lemma {:induction false} StaysProcessed(s: State, events: seq<Event>, j: nat)
    requires j <= |events|
    ensures forall id :: id in Run(s, events[..j]).processed ==> id in Run(s, events).processed
  {
    hide Step;
    if j == |events| {
      assert events[..j] == events;
    } else {
      var front := events[..|events| - 1];
      StaysProcessed(s, front, j);
      assert front[..j] == events[..j];
      EffectiveRecorded(Run(s, front), events[|events| - 1]);
    }
  }

  /** A command id takes effect at most once: redelivered, it leaves the whole state as it is. */
  lemma OncePerCommand(s: State, events: seq<Event>, j: nat, k: nat)
    requires j < k < |events| && events[j].Signal? && events[k].Signal? && events[j].command.id == events[k].command.id
    requires Effective(Run(s, events[..j]), events[j])
    ensures Run(s, events[..k + 1]) == Run(s, events[..k])
  {
    hide Step;
    assert events[..j + 1][..j] == events[..j] && events[..k + 1][..k] == events[..k] && events[..k][..j + 1] == events[..j + 1];
    EffectiveRecorded(Run(s, events[..j]), events[j]);
    assert events[j].command.id in Run(s, events[..j + 1]).processed;
    StaysProcessed(s, events[..k], j + 1);
    EffectiveRecorded(Run(s, events[..k]), events[k]);
  }

  /** The events that are not malformed, repeated or refused signals. */
  function Kept(s: State, events: seq<Event>): seq<Event> {
    if events == [] then []
    else
      var front, e := events[..|events| - 1], events[|events| - 1];
      if e.Signal? && !Effective(Run(s, front), e) then Kept(s, front) else Kept(s, front) + [e]
  }

  /** Deleting every signal that is malformed, repeated or refused gives the same final state. */
  lemma {:induction false} OnlyEffectiveSignalsCount(s: State, events: seq<Event>)
    ensures Run(s, Kept(s, events)) == Run(s, events)
  {
    hide Step, Effective;
    if events != [] {
      var front, e := events[..|events| - 1], events[|events| - 1];
      OnlyEffectiveSignalsCount(s, front);
      EffectiveRecorded(Run(s, front), e);
      var kept := Kept(s, front) + [e];
      assert kept[..|kept| - 1] == Kept(s, front);
    }
  }

  // ----- The timer -----

  /** Signals that never close, reset or end the current node. */
  predicate Lingering(c: Command) {
    c.action in {AddSign, Transfer, Urge, Comment}
  }

  /** No comment, urge, add-sign or transfer moves the deadline of the current node. */
  lemma DeadlineUnmoved(s: State, e: Event)
    requires Live(s) && e.Signal? && (Lingering(e.command) || Ignored(s, e.command))
    ensures var s' := Step(s, e);
            && s'.current == s.current && |s'.nodes| == |s.nodes| && s'.status == Running
            && Deadline(s') == Deadline(s) && s'.nextReminder == s.nextReminder && s'.interval == s.interval
  {
    hide Passed, Unique, AppendAbsent, ReplaceFirst, Historic, Malformed;
  }

  /** How many reminders fit into a gap. */
  function Rounds(gap: int, interval: int): nat
    requires interval > 0
    decreases gap
  {
    if gap <= 0 then 0 else 1 + Rounds(gap - interval, interval)
  }

  lemma {:induction false} RoundsGrow(a: int, b: int, interval: int)
    requires interval > 0 && a <= b
    ensures Rounds(a, interval) <= Rounds(b, interval)
    decreases b
  {
    if a > 0 {
      RoundsGrow(a - interval, b - interval, interval);
    }
  }

  function Wakes(events: seq<Event>): nat {
    if events == [] then 0 else (if events[0].Wake? then 1 else 0) + Wakes(events[1..])
  }

  /** From s on, the timer fires when due and no signal closes, resets or ends the node. */
  predicate Undecided(s: State, events: seq<Event>)
    decreases |events|
  {
    if events == [] || !Live(s) then true
    else
      && (if events[0].Wake? then events[0].at >= WakeAt(s) else Lingering(events[0].command) || Ignored(s, events[0].command))
      && Undecided(Step(s, events[0]), events[1..])
  }

  lemma {:induction false} RunFrom(s: State, events: seq<Event>)
    requires events != []
    ensures Run(s, events) == Run(Step(s, events[0]), events[1..])
  {
    hide Step;
    if |events| == 1 {
      assert events[..0] == [];
    } else {
      var front := events[..|events| - 1];
      RunFrom(s, front);
      assert front[1..] == events[1..][..|events[1..]| - 1] && front[0] == events[0];
    }
  }

  lemma {:induction false} EndedStays(s: State, events: seq<Event>)
    requires !Live(s)
    ensures Run(s, events) == s
  {
    if events != [] {
      EndedStays(s, events[..|events| - 1]);
    }
  }

  /** A due wake-up expires the node exactly from its deadline on; before, it uses up one reminder. */
  lemma WakeExpiresOrReminds(s: State, e: Event)
    requires Live(s) && e.Wake? && e.at >= WakeAt(s) && s.interval > 0
    ensures Step(s, e).status == Expired <==> e.at >= Deadline(s)
    ensures e.at < Deadline(s) ==>
              && Live(Step(s, e)) && Deadline(Step(s, e)) == Deadline(s) && Step(s, e).interval == s.interval
              && Rounds(Deadline(s) - s.nextReminder, s.interval) > Rounds(Deadline(s) - Step(s, e).nextReminder, s.interval)
  {
    if e.at < Deadline(s) {
      var gap := Deadline(s) - s.nextReminder;
      assert gap > 0 && e.at >= s.nextReminder;
      RoundsGrow(Deadline(s) - Step(s, e).nextReminder, gap - s.interval, s.interval);
    }
  }

  /**
    The timer loop ends: with nothing that decides the node, more wake-ups than reminders fit before
    the deadline leave the run expired, unless an activity failed.
   */
  lemma {:induction false} TimerEnds(s: State, events: seq<Event>)
    requires Live(s) && s.interval > 0 && Undecided(s, events)
    requires Wakes(events) > Rounds(Deadline(s) - s.nextReminder, s.interval)
    ensures Run(s, events).status == Expired || Run(s, events).failed
    decreases |events|
  {
    hide Step, Deadline, WakeAt, Ignored, Rounds, Lingering;
    var e, rest := events[0], events[1..];
    var s' := Step(s, e);
    RunFrom(s, events);
    if e.Wake? {
      WakeExpiresOrReminds(s, e);
      if e.at < Deadline(s) {
        TimerEnds(s', rest);
      } else {
        ExpiredEnded(s, e);
        EndedStays(s', rest);
      }
    } else {
      DeadlineUnmoved(s, e);
      if Live(s') {
        TimerEnds(s', rest);
      } else {
        EndedStays(s', rest);
      }
    }
  }

  lemma ExpiredEnded(s: State, e: Event)
    requires Step(s, e).status == Expired
    ensures !Live(Step(s, e))
  {
  }

  // ----- Nodes that can no longer be approved -----

  /** The assignees whose approval is not refused. */
  function Willing(n: Runtime, applicant: string, k: nat): set<string>
    requires k <= |n.node.assignees|
  {
    set j | 0 <= j < k && n.node.assignees[j] != applicant && n.node.assignees[j] != "" :: n.node.assignees[j]
  }

  function With(n: Runtime, signers: set<string>): Runtime {
    n.(approvedBy := n.approvedBy + signers)
  }

  /** u has signed already, or is an assignee whose approval is not refused. */
  predicate CanSign(n: Runtime, applicant: string, u: string) {
    u in n.approvedBy || (u in n.node.assignees && u != applicant && u != "")
  }

  /**
    Somebody may still approve; and without added signers, the mode or the role lets one signature do
    or no assignee is barred, while with added signers an original assignee can sign and so can, by
    mode, one or all of the added ones.
   */
  predicate Closable(n: Runtime, applicant: string, role: bool) {
    && (exists u :: u in n.node.assignees && u != applicant && u != "")
    && if n.added == [] then
         n.node.countersign == "any" || role || forall u :: u in n.node.assignees ==> CanSign(n, applicant, u)
       else
         && (exists u :: u in n.node.assignees && u !in n.added && CanSign(n, applicant, u))
         && if n.node.countersign == "any" then exists u :: u in n.added && CanSign(n, applicant, u)
            else forall u :: u in n.added ==> CanSign(n, applicant, u)
  }

  /** That check of the roster decides whether the node would pass with every signature it can get. */
  lemma RosterDecides(n: Runtime, applicant: string, role: bool)
    ensures var everyone := Willing(n, applicant, |n.node.assignees|);
            Closable(n, applicant, role) <==> everyone != {} && Passed(With(n, everyone), role)
  {
    var everyone := Willing(n, applicant, |n.node.assignees|);
    assert forall u :: CanSign(n, applicant, u) <==> u in With(n, everyone).approvedBy by {
      forall u | u in n.node.assignees && u != applicant && u != "" ensures u in everyone {
        var k :| 0 <= k < |n.node.assignees| && n.node.assignees[k] == u;
      }
    }
    if u :| u in n.node.assignees && u != applicant && u != "" {
      var k :| 0 <= k < |n.node.assignees| && n.node.assignees[k] == u;
      assert u in everyone;
    }
    if everyone != {} {
      var u :| u in everyone;
      assert u in n.node.assignees && u != applicant && u != "";
    }
  }

  lemma PassedGrows(n: Runtime, a: set<string>, b: set<string>, role: bool)
    requires a <= b && Passed(With(n, a), role)
    ensures Passed(With(n, b), role)
  {
  }

  /** Nothing but approvals of one kind, urges and comments. */
  predicate OnlySigns(e: Event, role: bool) {
    e.Signal? && e.command.action in {Approve, Urge, Comment} && e.command.roleNodeOrSign == role
  }

  /** Still at the node, signed by nobody but willing assignees. */
  predicate StillAt(s: State, s': State) {
    && s'.applicant == s.applicant && s'.current == s.current < |s.nodes| == |s'.nodes| && s'.status == Running
    && exists signers :: signers <= Willing(s.nodes[s.current], s.applicant, |s.nodes[s.current].node.assignees|)
                         && s'.nodes[s.current] == With(s.nodes[s.current], signers)
  }

  lemma StillThere(s: State, s': State, e: Event, role: bool)
    requires s.current < |s.nodes| && StillAt(s, s') && OnlySigns(e, role) && !Closable(s.nodes[s.current], s.applicant, role)
    ensures StillAt(s, Step(s', e))
  {
    hide Passed, Closable;
    var n, c := s.nodes[s.current], e.command;
    var everyone := Willing(n, s.applicant, |n.node.assignees|);
    var signers :| signers <= everyone && s'.nodes[s.current] == With(n, signers);
    if Live(s') && !Ignored(s', c) && c.action == Approve {
      var k :| 0 <= k < |n.node.assignees| && n.node.assignees[k] == c.actor;
      assert c.actor in everyone;
      assert With(n, signers + {c.actor}) == With(n, signers).(approvedBy := With(n, signers).approvedBy + {c.actor});
      NotPassed(n, s.applicant, signers + {c.actor}, role);
    }
  }

  lemma NotPassed(n: Runtime, applicant: string, signers: set<string>, role: bool)
    requires signers <= Willing(n, applicant, |n.node.assignees|) && signers != {} && !Closable(n, applicant, role)
    ensures !Passed(With(n, signers), role)
  {
    hide Passed, Closable;
    RosterDecides(n, applicant, role);
    if Passed(With(n, signers), role) {
      PassedGrows(n, signers, Willing(n, applicant, |n.node.assignees|), role);
    }
  }

  /** A node that is not closable is never closed by approvals alone, however many. */
  lemma {:induction false} StuckForever(s: State, events: seq<Event>, role: bool)
    requires Live(s) && !Closable(s.nodes[s.current], s.applicant, role)
    requires forall k :: 0 <= k < |events| ==> OnlySigns(events[k], role)
    ensures StillAt(s, Run(s, events))
  {
    hide Step, Closable, OnlySigns, StillAt;
    if events == [] {
      StillAtStart(s);
    } else {
      var front := events[..|events| - 1];
      assert forall k :: 0 <= k < |front| ==> front[k] == events[k];
      StuckForever(s, front, role);
      StillThere(s, Run(s, front), events[|events| - 1], role);
    }
  }

  lemma StillAtStart(s: State)
    requires Live(s)
    ensures StillAt(s, s)
  {
    assert s.nodes[s.current] == With(s.nodes[s.current], {});
  }

  /** An approval by every assignee in turn, under fresh command ids. */
  function Everyone(n: Runtime, ids: seq<string>, role: bool): (events: seq<Event>)
    requires |ids| == |n.node.assignees|
    ensures |events| == |ids|
    ensures forall k :: 0 <= k < |ids| ==>
              events[k] == Signal(0, Command(ids[k], Approve, n.node.assignees[k], "", role, [], "", "", 0), true, true, 0)
  {
    seq(|ids|, k requires 0 <= k < |ids| =>
      Signal(0, Command(ids[k], Approve, n.node.assignees[k], "", role, [], "", "", 0), true, true, 0))
  }

  predicate Fresh(s: State, ids: seq<string>) {
    && (forall k :: 0 <= k < |ids| ==> ids[k] != "" && ids[k] !in s.processed)
    && (forall j, k :: 0 <= j < k < |ids| ==> ids[j] != ids[k])
  }

  /** After k approvals that did not close the node. */
  predicate SignedSoFar(s: State, s': State, ids: seq<string>, role: bool, k: nat)
    requires s.current < |s.nodes| && k <= |ids| == |s.nodes[s.current].node.assignees|
  {
    var n := s.nodes[s.current];
    var signed := Willing(n, s.applicant, k);
    && Live(s') && s'.applicant == s.applicant && s'.current == s.current && |s'.nodes| == |s.nodes|
    && s'.nodes[s.current] == With(n, signed)
    && (signed != {} ==> !Passed(With(n, signed), role))
    && (forall j :: k <= j < |ids| ==> ids[j] !in s'.processed)
  }

  /** What one recorded approval that does not close the node leaves. */
  lemma ApprovalStep(s: State, e: Event)
    requires Live(s) && e.Signal? && e.recorded && e.command.action == Approve && e.command.id != "" && e.command.id !in s.processed
    requires e.command.actor in s.nodes[s.current].node.assignees
    ensures e.command.actor in {s.applicant, ""} ==> Step(s, e) == s
    ensures e.command.actor !in {s.applicant, ""} && !Closes(s, e, s.current) ==>
              && Step(s, e) == WithNode(s, With(s.nodes[s.current], {e.command.actor})).(processed := s.processed + [e.command.id])
              && !Passed(With(s.nodes[s.current], {e.command.actor}), e.command.roleNodeOrSign)
  {
    hide Passed;
  }

  lemma NextSigns(s: State, s': State, ids: seq<string>, role: bool, k: nat)
    requires Live(s) && k < |ids| == |s.nodes[s.current].node.assignees| && Fresh(s, ids)
    requires SignedSoFar(s, s', ids, role, k)
    ensures var e := Everyone(s.nodes[s.current], ids, role)[k];
            SignedSoFar(s, Step(s', e), ids, role, k + 1) || Closes(s', e, s.current)
  {
    hide Passed, Step, Closes;
    var n, e := s.nodes[s.current], Everyone(s.nodes[s.current], ids, role)[k];
    var actor, signed := n.node.assignees[k], Willing(n, s.applicant, k);
    ApprovalStep(s', e);
    if actor != s.applicant && actor != "" {
      assert Willing(n, s.applicant, k + 1) == signed + {actor};
      assert With(With(n, signed), {actor}) == With(n, signed + {actor});
    } else {
      assert Willing(n, s.applicant, k + 1) == signed;
    }
  }

  lemma {:induction false} SigningCloses(s: State, ids: seq<string>, role: bool, k: nat)
    requires Live(s) && k <= |ids| == |s.nodes[s.current].node.assignees| && Fresh(s, ids)
    ensures var events := Everyone(s.nodes[s.current], ids, role);
            || SignedSoFar(s, Run(s, events[..k]), ids, role, k)
            || exists j :: 0 <= j < k && Closes(Run(s, events[..j]), events[j], s.current)
  {
    hide Step, Closes, SignedSoFar, Everyone, Fresh;
    var events := Everyone(s.nodes[s.current], ids, role);
    if k == 0 {
      NobodyYet(s, ids, role);
    } else {
      SigningCloses(s, ids, role, k - 1);
      assert events[..k][..k - 1] == events[..k - 1];
      if SignedSoFar(s, Run(s, events[..k - 1]), ids, role, k - 1) {
        NextSigns(s, Run(s, events[..k - 1]), ids, role, k - 1);
      }
    }
  }

  lemma NobodyYet(s: State, ids: seq<string>, role: bool)
    requires Live(s) && |ids| == |s.nodes[s.current].node.assignees| && Fresh(s, ids)
    ensures SignedSoFar(s, s, ids, role, 0)
  {
    var n := s.nodes[s.current];
    assert With(n, Willing(n, s.applicant, 0)) == n;
  }

  /** The j-th event closes node i, which is approved from then on. */
  predicate ClosedAt(s: State, events: seq<Event>, j: nat, i: nat)
    requires j < |events|
  {
    && Closes(Run(s, events[..j]), events[j], i)
    && i < |Run(s, events[..j + 1]).nodes| && Run(s, events[..j + 1]).nodes[i].status == Approved
  }

  lemma {:induction false} ClosesApproves(s: State, e: Event, i: nat)
    requires Closes(s, e, i)
    ensures i < |Step(s, e).nodes| && Step(s, e).nodes[i].status == Approved
  {
    hide Passed, Malformed;
  }

  /**
    Exactly the closable nodes are closed and approved by approvals alone: asking every assignee in turn closes a
    closable one, and no sequence of approvals closes another.
   */
  lemma ClosableExactly(s: State, ids: seq<string>, role: bool)
    requires Live(s) && |ids| == |s.nodes[s.current].node.assignees| && Fresh(s, ids)
    ensures var events := Everyone(s.nodes[s.current], ids, role);
            Closable(s.nodes[s.current], s.applicant, role) <==> exists j :: 0 <= j < |events| && ClosedAt(s, events, j, s.current)
  {
    hide Step, Passed, Closable, Closes;
    var n := s.nodes[s.current];
    var events := Everyone(n, ids, role);
    if Closable(n, s.applicant, role) {
      var j := SomebodyCloses(s, ids, role);
      RunOneMore(s, events, j);
      ClosesApproves(Run(s, events[..j]), events[j], s.current);
      assert ClosedAt(s, events, j, s.current);
    } else {
      forall j | 0 <= j < |events| ensures !ClosedAt(s, events, j, s.current) {
        NeverCloses(s, events[..j], events[j], role);
      }
    }
  }

  lemma {:induction false} SomebodyCloses(s: State, ids: seq<string>, role: bool) returns (j: nat)
    requires Live(s) && |ids| == |s.nodes[s.current].node.assignees| && Fresh(s, ids) && Closable(s.nodes[s.current], s.applicant, role)
    ensures var events := Everyone(s.nodes[s.current], ids, role); j < |events| && Closes(Run(s, events[..j]), events[j], s.current)
  {
    hide Step, Passed, Closable;
    var events := Everyone(s.nodes[s.current], ids, role);
    RosterDecides(s.nodes[s.current], s.applicant, role);
    SigningCloses(s, ids, role, |ids|);
    assert !SignedSoFar(s, Run(s, events[..|ids|]), ids, role, |ids|);
    j :| 0 <= j < |ids| && Closes(Run(s, events[..j]), events[j], s.current);
  }

  lemma NeverCloses(s: State, events: seq<Event>, e: Event, role: bool)
    requires Live(s) && !Closable(s.nodes[s.current], s.applicant, role)
    requires (forall k :: 0 <= k < |events| ==> OnlySigns(events[k], role)) && OnlySigns(e, role)
    ensures !Closes(Run(s, events), e, s.current)
  {
    hide Step, Passed, Closable, Run;
    StuckForever(s, events, role);
    var s', n, actor := Run(s, events), s.nodes[s.current], e.command.actor;
    var signers :| signers <= Willing(n, s.applicant, |n.node.assignees|) && s'.nodes[s.current] == With(n, signers);
    if actor in n.node.assignees && actor != s.applicant && actor != "" {
      assert actor in Willing(n, s.applicant, |n.node.assignees|);
      assert With(n, signers + {actor}) == With(n, signers).(approvedBy := With(n, signers).approvedBy + {actor});
      NotPassed(n, s.applicant, signers + {actor}, role);
    }
  }

  /** A sole assignee who adds himself leaves a node that no approval can close. */
  lemma SoleAssigneeAddsHimself(s: State, e: Event, u: string, role: bool)
    requires Live(s) && s.nodes[s.current].node.assignees == [u] && s.nodes[s.current].added == []
    requires e.Signal? && e.recorded && !Malformed(e.command) && e.command.id !in s.processed
    requires e.command.action == AddSign && e.command.actor == u && Unique(e.command.targets) == [u]
    requires e.command.countersign in ["all", "any"]
    ensures var s' := Step(s, e);
            && Live(s') && s'.current == s.current && s'.processed == s.processed + [e.command.id]
            && !Closable(s'.nodes[s'.current], s'.applicant, role)
  {
    hide Unique, Passed;
    assert AppendAbsent([u], []) == [u] && AppendAbsent([], []) == [];
    assert [u][..0] == [];
    assert AppendAbsent([u], [u]) == [u] && AppendAbsent([], [u]) == [u];
  }
}

/**
  Which nodes of an approval can still be passed at all, by any commands of their assignees: exactly
  those with somebody who is an assignee more often than an added signer.
 */
module ApprovalPassing {
  import opened Approval
  import opened ApprovalRuns
  import ApprovalEffects

  /** u is an original assignee of the node: listed there more often than among the added signers. */
  predicate Original(n: Runtime, u: string) {
    u != "" && multiset(n.node.assignees)[u] > multiset(n.added)[u]
  }

  predicate HasOriginal(n: Runtime) {
    exists u :: u in n.node.assignees && Original(n, u)
  }

  /** Somewhere in the run from s an approval closes node i. */
  predicate ClosesIn(s: State, events: seq<Event>, i: nat) {
    exists j :: 0 <= j < |events| && Closes(Run(s, events[..j]), events[j], i)
  }

  // ----- Nobody original is left -----

  /** The same people, as often, up to nameless entries. */
  ghost predicate SamePeople(a: seq<string>, b: seq<string>) {
    forall u :: u != "" ==> multiset(a)[u] == multiset(b)[u]
  }

  ghost predicate BarredRoster(n: Runtime) {
    "" !in n.approvedBy && SamePeople(n.node.assignees, n.added)
  }

  ghost predicate Barred(n: Runtime) {
    n.status != Approved && BarredRoster(n)
  }

  lemma {:induction false} AppendedAlike(a: seq<string>, b: seq<string>, targets: seq<string>)
    requires SamePeople(a, b) && "" !in targets
    ensures SamePeople(AppendAbsent(a, targets), AppendAbsent(b, targets))
  {
    if targets != [] {
      var front, t := targets[..|targets| - 1], targets[|targets| - 1];
      AppendedAlike(a, b, front);
      var x, y := AppendAbsent(a, front), AppendAbsent(b, front);
      assert multiset(x)[t] == multiset(y)[t];
      assert t in x <==> t in y;
    }
  }

  lemma ReplacedAlike(a: seq<string>, b: seq<string>, u: string, v: string)
    requires SamePeople(a, b) && u != ""
    ensures SamePeople(ReplaceFirst(a, u, v), ReplaceFirst(b, u, v))
  {
    ReplacedMultiset(a, u, v);
    ReplacedMultiset(b, u, v);
    assert multiset(a)[u] == multiset(b)[u];
    assert u in a <==> u in b;
  }

  lemma {:induction false} UniqueNamed(values: seq<string>)
    ensures "" !in Unique(values)
  {
    if values != [] {
      UniqueNamed(values[..|values| - 1]);
    }
  }

  lemma ApplyKeepsBarred(s: State, c: Command, i: nat)
    requires Live(s) && i < |s.nodes| && BarredRoster(s.nodes[i]) && Apply(s, c).Changed? && c.actor != ""
    ensures i < |Apply(s, c).s.nodes| && BarredRoster(Apply(s, c).s.nodes[i])
  {
    hide Passed, Unique, Historic, AppendAbsent, ReplaceFirst, SamePeople;
    if s.current == i {
      var n, targets := s.nodes[i], Unique(c.targets);
      UniqueNamed(c.targets);
      if c.action == AddSign {
        AppendedAlike(n.node.assignees, n.added, targets);
      } else if c.action == Transfer && |targets| == 1 {
        ReplacedAlike(n.node.assignees, n.added, c.actor, targets[0]);
      }
    }
  }

  lemma StepKeepsRoster(s: State, e: Event, i: nat)
    requires i < |s.nodes| && BarredRoster(s.nodes[i]) && s.current <= |s.nodes| && i < |Step(s, e).nodes|
    ensures BarredRoster(Step(s, e).nodes[i])
  {
    hide Apply, SamePeople, Passed;
    if Live(s) && e.Signal? && !Ignored(s, e.command) {
      ApplyKeepsBarred(s, e.command, i);
    }
  }

  lemma SameMembers(a: seq<string>, b: seq<string>)
    requires SamePeople(a, b)
    ensures forall u :: u != "" ==> (u in a <==> u in b)
  {
    forall u | u != "" ensures u in a <==> u in b {
      assert multiset(a)[u] == multiset(b)[u];
    }
  }

  lemma BarredNotClosed(s: State, e: Event, i: nat)
    requires i < |s.nodes| && BarredRoster(s.nodes[i])
    ensures !Closes(s, e, i)
  {
    SameMembers(s.nodes[i].node.assignees, s.nodes[i].added);
    hide Apply, SamePeople;
  }

  /** Without an original assignee a node is never passed, and the run never approved, whatever follows. */
  lemma {:induction false} BarredForever(s: State, events: seq<Event>, i: nat)
    requires Positioned(s) && Reported(s) && i < |s.nodes| && Barred(s.nodes[i])
    ensures var t := Run(s, events);
            && Positioned(t) && Reported(t) && |t.nodes| == |s.nodes| && Barred(t.nodes[i])
            && t.status != AllApproved && !ClosesIn(s, events, i)
  {
    hide Step, Closes, BarredRoster, Reported;
    if events != [] {
      var front, e := events[..|events| - 1], events[|events| - 1];
      var t := Run(s, front);
      BarredForever(s, front, i);
      StepKeepsPosition(t, e);
      StepKeepsRoster(t, e, i);
      StepOnNode(t, e, i);
      BarredNotClosed(t, e, i);
      forall j | 0 <= j < |events| ensures !Closes(Run(s, events[..j]), events[j], i) {
        if j < |front| {
          assert events[..j] == front[..j] && events[j] == front[j];
        }
      }
    }
  }

  // ----- Somebody original is left -----

  function Joined(list: seq<string>): string {
    if list == [] then "x" else list[0] + Joined(list[1..])
  }

  lemma {:induction false} JoinedIsNew(list: seq<string>)
    ensures Joined(list) != "" && forall s :: s in list ==> |s| < |Joined(list)|
  {
    if list != [] {
      JoinedIsNew(list[1..]);
    }
  }

  /** A command under an id that has not been used. */
  function Ask(s: State, action: Action, u: string, targets: seq<string>): Event {
    Signal(0, Command(Joined(s.processed), action, u, "reason", false, targets, "any", "", 0), true, true, 0)
  }

  lemma AskIsNew(s: State)
    ensures Joined(s.processed) != "" && Joined(s.processed) !in s.processed
  {
    JoinedIsNew(s.processed);
  }

  lemma OnlyOne(w: string)
    requires w != ""
    ensures Unique([w]) == [w]
  {
    assert [w][..0] == [] && Unique([]) == [];
  }

  lemma AppendOne(list: seq<string>, w: string)
    ensures AppendAbsent(list, [w]) == if w in list then list else list + [w]
  {
    assert [w][..0] == [] && AppendAbsent(list, []) == list;
  }

  /** What a recorded add-sign or transfer makes of the state. */
  lemma StepOnRoster(s: State, e: Event)
    requires Live(s) && e.Signal? && e.recorded && e.command.action in {AddSign, Transfer}
    requires !Malformed(e.command) && e.command.id !in s.processed && e.command.actor in s.nodes[s.current].node.assignees
    requires e.command.action == AddSign ==> ApplyAddSign(s, e.command).Changed?
    requires e.command.action == Transfer ==> ApplyTransfer(s, e.command).Changed?
    ensures var v := if e.command.action == AddSign then ApplyAddSign(s, e.command) else ApplyTransfer(s, e.command);
            Step(s, e) == v.s.(processed := s.processed + [e.command.id])
  {
    hide Unique, AppendAbsent, ReplaceFirst, Passed, Historic;
  }

  /** The node once u has added w. */
  function WithAdded(n: Runtime, u: string, w: string): Runtime {
    n.(node := n.node.(assignees := AppendAbsent(n.node.assignees, [w]), countersign := "any"),
       added := AppendAbsent(n.added, [w]), approvedBy := n.approvedBy + {u})
  }

  lemma SignerAdded(s: State, u: string, w: string)
    requires Live(s) && u in s.nodes[s.current].node.assignees && u != "" && w != ""
    ensures var e := Ask(s, AddSign, u, [w]);
            Step(s, e) == WithNode(s, WithAdded(s.nodes[s.current], u, w)).(processed := s.processed + [e.command.id])
  {
    AskIsNew(s);
    OnlyOne(w);
    hide Unique, AppendAbsent, Joined, Step;
    StepOnRoster(s, Ask(s, AddSign, u, [w]));
  }

  lemma ApprovalCloses(s: State, e: Event)
    requires Live(s) && e.Signal? && e.command.action == Approve && !Malformed(e.command) && e.command.id !in s.processed
    requires e.command.actor in s.nodes[s.current].node.assignees && e.command.actor != s.applicant
    requires Passed(s.nodes[s.current].(approvedBy := s.nodes[s.current].approvedBy + {e.command.actor}), e.command.roleNodeOrSign)
    ensures Closes(s, e, s.current)
  {
    hide Passed;
  }

  lemma AddedPasses(n: Runtime, u: string, w: string)
    requires u in n.node.assignees && u !in n.added && w != "" && w != u
    ensures var n' := WithAdded(n, u, w); w in n'.node.assignees && Passed(n'.(approvedBy := n'.approvedBy + {w}), false)
  {
    AppendOne(n.node.assignees, w);
    AppendOne(n.added, w);
    hide AppendAbsent, Unique;
    var n' := WithAdded(n, u, w);
    var signed := n'.(approvedBy := n'.approvedBy + {w});
    assert u in signed.node.assignees && u !in signed.added && u in signed.approvedBy;
    assert w in signed.added && w in signed.approvedBy;
  }

  /** An original assignee who was never added adds a signer and thereby signs, applicant or not; the signer then approves. */
  lemma AddedSignerCloses(s: State, u: string, w: string)
    requires Live(s) && u in s.nodes[s.current].node.assignees && u !in s.nodes[s.current].added && u != ""
    requires w != "" && w != u && w != s.applicant
    ensures var e := Ask(s, AddSign, u, [w]); Closes(Step(s, e), Ask(Step(s, e), Approve, w, []), s.current)
  {
    SignerAdded(s, u, w);
    AddedPasses(s.nodes[s.current], u, w);
    hide Unique, AppendAbsent, Joined, Step, Passed, Closes, WithAdded;
    var s' := Step(s, Ask(s, AddSign, u, [w]));
    AskIsNew(s');
    ApprovalCloses(s', Ask(s', Approve, w, []));
  }

  /** Handing one of u's places over takes one from both lists. */
  lemma HandedOver(s: State, u: string, w: string)
    requires Live(s) && u in s.nodes[s.current].node.assignees && u in s.nodes[s.current].added && u != "" && w != "" && w != u
    ensures var s', n := Step(s, Ask(s, Transfer, u, [w])), s.nodes[s.current];
            && Live(s') && s'.current == s.current && s'.applicant == s.applicant
            && SameElsewhere(s, s')
            && multiset(s'.nodes[s.current].node.assignees)[u] == multiset(n.node.assignees)[u] - 1
            && multiset(s'.nodes[s.current].added)[u] == multiset(n.added)[u] - 1
  {
    AskIsNew(s);
    OnlyOne(w);
    var n := s.nodes[s.current];
    ReplacedMultiset(n.node.assignees, u, w);
    ReplacedMultiset(n.added, u, w);
    hide Unique, AppendAbsent, ReplaceFirst, Joined, Step;
    StepOnRoster(s, Ask(s, Transfer, u, [w]));
  }

  lemma ClosesLater(s: State, e: Event, rest: seq<Event>, i: nat)
    requires ClosesIn(Step(s, e), rest, i)
    ensures ClosesIn(s, [e] + rest, i)
  {
    hide Step, Closes;
    var j :| 0 <= j < |rest| && Closes(Run(Step(s, e), rest[..j]), rest[j], i);
    var events := [e] + rest;
    RunFrom(s, events[..j + 1]);
    assert events[..j + 1][1..] == rest[..j];
    assert Closes(Run(s, events[..j + 1]), events[j + 1], i);
  }

  /** Nothing but the current node has changed. */
  predicate SameElsewhere(s: State, t: State) {
    && t.applicant == s.applicant && |t.nodes| == |s.nodes| && t.current == s.current && t.completions == s.completions
    && forall k :: 0 <= k < |s.nodes| && k != s.current ==> t.nodes[k] == s.nodes[k]
  }

  /** The run has passed the node s was at: the next one is active, or everything is approved and an active contract reported. */
  predicate Beyond(s: State, t: State) {
    && t.applicant == s.applicant && |t.nodes| == |s.nodes| && t.current == s.current + 1 <= |t.nodes| && !t.failed
    && t.nodes[s.current].status == Approved
    && (forall k :: s.current + 1 < k < |s.nodes| ==> t.nodes[k] == s.nodes[k])
    && (if s.current + 1 < |s.nodes| then
          && t.status == Running && t.completions == s.completions
          && t.nodes[s.current + 1] == s.nodes[s.current + 1].(status := Active, startedAt := t.nodes[s.current + 1].startedAt)
        else t.status == AllApproved && t.completions == s.completions + [Completion(AllApproved, ActiveContract)])
  }

  lemma {:induction false} StillBeyond(s: State, s': State, t: State)
    requires s.current < |s.nodes| && SameElsewhere(s, s') && Beyond(s', t)
    ensures Beyond(s, t)
  {
  }

  lemma {:induction false} ClosingPasses(s: State, e: Event)
    requires Live(s) && Closes(s, e, s.current) && e.recorded && e.completed
    ensures Beyond(s, Step(s, e))
  {
    hide Closes, Step;
    ApprovalEffects.ClosingStep(s, e, s.current);
  }

  lemma {:induction false} RunTwo(s: State, e: Event, last: Event)
    ensures Run(s, [e] + [last]) == Step(Step(s, e), last)
  {
    hide Step;
    var events := [e] + [last];
    assert events[..|events| - 1] == [e] && [e][..|[e]| - 1] == [];
    assert Run(s, [e]) == Step(Run(s, []), e) == Step(s, e);
  }

  /**
    The places u has as an added signer are handed over, and then u adds the signer who closes the
    node; so the run gets beyond it.
   */
  lemma {:induction false} OriginalCloses(s: State, u: string, w: string) returns (events: seq<Event>)
    requires Live(s) && Original(s.nodes[s.current], u) && w != "" && w != u && w != s.applicant
    ensures ClosesIn(s, events, s.current) && Beyond(s, Run(s, events))
    ensures forall k :: 0 <= k < |events| ==>
              events[k].Signal? && events[k].command.action in {Transfer, AddSign, Approve} && events[k].command.actor in {u, w}
    decreases multiset(s.nodes[s.current].added)[u]
  {
    hide Step, Closes, Beyond, SameElsewhere;
    var n := s.nodes[s.current];
    if u in n.added {
      HandedOver(s, u, w);
      var e := Ask(s, Transfer, u, [w]);
      var rest := OriginalCloses(Step(s, e), u, w);
      ClosesLater(s, e, rest, s.current);
      events := [e] + rest;
      RunFrom(s, events);
      StillBeyond(s, Step(s, e), Run(s, events));
    } else {
      AddedSignerCloses(s, u, w);
      var e := Ask(s, AddSign, u, [w]);
      var last := Ask(Step(s, e), Approve, w, []);
      assert [last][..0] == [] && Run(Step(s, e), []) == Step(s, e);
      assert ClosesIn(Step(s, e), [last], s.current);
      ClosesLater(s, e, [last], s.current);
      events := [e] + [last];
      RunTwo(s, e, last);
      AddedElsewhere(s, u, w);
      ClosingPasses(Step(s, e), last);
      StillBeyond(s, Step(s, e), Run(s, events));
    }
  }

  lemma {:induction false} AddedElsewhere(s: State, u: string, w: string)
    requires Live(s) && u in s.nodes[s.current].node.assignees && u != "" && w != ""
    ensures var t := Step(s, Ask(s, AddSign, u, [w])); SameElsewhere(s, t) && Live(t) && t.current == s.current
  {
    SignerAdded(s, u, w);
    hide Step, WithAdded, Joined;
  }

  // ----- In every run -----

  lemma SignersNamed(input: Input, at: int, done: int, events: seq<Event>, i: nat)
    requires ValidInput(input) && i < |Run(Begin(input, at, done), events).nodes|
    ensures "" !in Run(Begin(input, at, done), events).nodes[i].approvedBy
  {
    PositionHolds(input, at, done, events);
    hide Run, Begin, Positioned;
    if "" in Run(Begin(input, at, done), events).nodes[i].approvedBy {
      var k := SignedSinceReset(input, at, done, events, i, "");
      assert false;
    }
  }

  /** What a reachable state says of every node that has no original assignee. */
  lemma {:induction false} BarredInRun(input: Input, at: int, done: int, before: seq<Event>, i: nat)
    requires ValidInput(input) && Live(Run(Begin(input, at, done), before))
    requires var s := Run(Begin(input, at, done), before); s.current <= i < |s.nodes| && !HasOriginal(s.nodes[i])
    ensures var s := Run(Begin(input, at, done), before); Positioned(s) && Reported(s) && Barred(s.nodes[i])
  {
    PositionHolds(input, at, done, before);
    RosterHolds(input, at, done, before);
    SignersNamed(input, at, done, before, i);
    hide Run, Begin;
    var n := Run(Begin(input, at, done), before).nodes[i];
    assert RosterOk(n);
    forall u | u != "" ensures multiset(n.node.assignees)[u] == multiset(n.added)[u] {
      assert !(u in n.node.assignees && Original(n, u));
    }
  }

  /** Some original assignee and somebody else close the node. */
  lemma {:induction false} NodePasses(s: State) returns (events: seq<Event>)
    requires Live(s) && HasOriginal(s.nodes[s.current])
    ensures ClosesIn(s, events, s.current) && Beyond(s, Run(s, events))
  {
    hide Run, Step, ClosesIn, Beyond;
    var u :| u in s.nodes[s.current].node.assignees && Original(s.nodes[s.current], u);
    var w := Joined([u, s.applicant]);
    JoinedIsNew([u, s.applicant]);
    events := OriginalCloses(s, u, w);
  }

  /**
    In every reachable state, the current node can be approved by some further events if and only if it
    has an original assignee; otherwise no stream of signals and wake-ups approves it.
   */
  lemma PassableExactly(input: Input, at: int, done: int, before: seq<Event>)
    requires ValidInput(input) && Live(Run(Begin(input, at, done), before))
    ensures var s := Run(Begin(input, at, done), before);
            && (HasOriginal(s.nodes[s.current]) <==> exists events: seq<Event> :: ClosesIn(s, events, s.current))
            && (HasOriginal(s.nodes[s.current]) <==> exists events: seq<Event> :: ApprovedIn(Run(s, events), s.current))
  {
    hide Run, Begin, Step, Closes, ClosesIn, Reported;
    var s := Run(Begin(input, at, done), before);
    if HasOriginal(s.nodes[s.current]) {
      var events := NodePasses(s);
      assert ApprovedIn(Run(s, events), s.current);
    } else {
      BarredInRun(input, at, done, before, s.current);
      forall events: seq<Event> ensures !ClosesIn(s, events, s.current) && !ApprovedIn(Run(s, events), s.current) {
        BarredForever(s, events, s.current);
      }
    }
  }

  predicate ApprovedIn(s: State, i: nat) {
    i < |s.nodes| && s.nodes[i].status == Approved
  }

  // ----- Runs that can still be approved -----

  /** Every node from the i-th on has an original assignee. */
  predicate AllOriginal(s: State, i: nat) {
    forall k :: i <= k < |s.nodes| ==> HasOriginal(s.nodes[k])
  }

  lemma {:induction false} OriginalsStay(s: State, t: State)
    requires s.current < |s.nodes| && Beyond(s, t) && AllOriginal(s, s.current)
    ensures AllOriginal(t, t.current)
  {
    forall k | t.current <= k < |t.nodes| ensures HasOriginal(t.nodes[k]) {
      assert HasOriginal(s.nodes[k]);
      var u :| u in s.nodes[k].node.assignees && Original(s.nodes[k], u);
      assert u in t.nodes[k].node.assignees && Original(t.nodes[k], u);
    }
  }

  lemma {:induction false} RunConcat(s: State, a: seq<Event>, b: seq<Event>)
    ensures Run(s, a + b) == Run(Run(s, a), b)
  {
    hide Step;
    if b == [] {
      assert a + b == a;
    } else {
      assert (a + b)[..|a + b| - 1] == a + b[..|b| - 1];
      RunConcat(s, a, b[..|b| - 1]);
    }
  }

  /** Node after node is passed. */
  lemma {:induction false} AllPass(s: State) returns (events: seq<Event>)
    requires Live(s) && AllOriginal(s, s.current)
    ensures var t := Run(s, events);
            t.status == AllApproved && !t.failed && t.completions == s.completions + [Completion(AllApproved, ActiveContract)]
    decreases |s.nodes| - s.current
  {
    hide Step, Run, HasOriginal;
    events := NodePasses(s);
    var t := Run(s, events);
    if t.current < |t.nodes| {
      OriginalsStay(s, t);
      var rest := AllPass(t);
      RunConcat(s, events, rest);
      events := events + rest;
    }
  }

  /**
    In every reachable state that has not ended, some further events approve the run if and only if
    every node from the current one on has an original assignee.
   */
  lemma {:induction false} ApprovableExactly(input: Input, at: int, done: int, before: seq<Event>)
    requires ValidInput(input) && Live(Run(Begin(input, at, done), before))
    ensures var s := Run(Begin(input, at, done), before);
            AllOriginal(s, s.current) <==> exists events: seq<Event> :: Run(s, events).status == AllApproved
  {
    hide Run, Begin, Step, HasOriginal, Reported;
    var s := Run(Begin(input, at, done), before);
    if AllOriginal(s, s.current) {
      var events := AllPass(s);
    } else {
      var i :| s.current <= i < |s.nodes| && !HasOriginal(s.nodes[i]);
      BarredInRun(input, at, done, before, i);
      forall events: seq<Event> ensures Run(s, events).status != AllApproved {
        BarredForever(s, events, i);
      }
    }
  }

  /** From the start: some run is approved, with an active contract reported, exactly when every node names an assignee. */
  lemma {:induction false} ApprovableFromTheStart(input: Input, at: int, done: int)
    requires ValidInput(input)
    ensures (forall i :: 0 <= i < |input.nodes| ==> NamesSomebody(input.nodes[i]))
            <==> exists events: seq<Event> :: ApprovedRun(Run(Begin(input, at, done), events))
  {
    var s := Begin(input, at, done);
    assert Run(s, []) == s;
    AssigneesAtFirst(input, at, done);
    hide Begin, Run, Step, HasOriginal, AllOriginal, NamesSomebody;
    if AllOriginal(s, s.current) {
      var events := AllPass(s);
      assert [] + [Completion(AllApproved, ActiveContract)] == [Completion(AllApproved, ActiveContract)];
      assert ApprovedRun(Run(s, events));
    } else {
      ApprovableExactly(input, at, done, []);
    }
  }

  predicate NamesSomebody(n: Node) {
    exists u :: u in n.assignees && u != ""
  }

  predicate ApprovedRun(s: State) {
    s.status == AllApproved && !s.failed && s.completions == [Completion(AllApproved, ActiveContract)]
  }

  lemma {:induction false} AssigneesAtFirst(input: Input, at: int, done: int)
    requires ValidInput(input)
    ensures var s := Begin(input, at, done);
            && Live(s) && s.current == 0 && s.completions == [] && |s.nodes| == |input.nodes|
            && (AllOriginal(s, 0) <==> forall i :: 0 <= i < |input.nodes| ==> NamesSomebody(input.nodes[i]))
  {
    var s := Begin(input, at, done);
    forall i | 0 <= i < |input.nodes| ensures HasOriginal(s.nodes[i]) <==> NamesSomebody(input.nodes[i]) {
      assert s.nodes[i].node.assignees == input.nodes[i].assignees && s.nodes[i].added == [];
      OriginalAtFirst(s.nodes[i], input.nodes[i]);
    }
    assert |s.nodes| == |input.nodes|;
    hide HasOriginal, NamesSomebody, Begin;
  }

  lemma {:induction false} OriginalAtFirst(n: Runtime, node: Node)
    requires n.node.assignees == node.assignees && n.added == []
    ensures HasOriginal(n) <==> NamesSomebody(node)
  {
    assert forall u :: Original(n, u) <==> u in node.assignees && u != "";
  }

  /** The roster a sole assignee leaves by adding himself. */
  lemma AddedHimself(s: State, e: Event, u: string)
    requires Live(s) && s.nodes[s.current].node.assignees == [u] && s.nodes[s.current].added == [] && u != ""
    requires "" !in s.nodes[s.current].approvedBy && s.nodes[s.current].status != Approved
    requires e.Signal? && e.recorded && !Malformed(e.command) && e.command.id !in s.processed
    requires e.command.action == AddSign && e.command.actor == u && e.command.targets == [u] && e.command.countersign == "all"
    ensures Live(Step(s, e)) && Step(s, e).current == s.current && Barred(Step(s, e).nodes[s.current])
  {
    OnlyOne(u);
    assert [] + [u] == [u];
    AppendOne([u], u);
    AppendOne([], u);
    hide Unique, AppendAbsent, Step;
    StepOnRoster(s, e);
    assert Step(s, e).nodes[s.current].node.assignees == [u] == Step(s, e).nodes[s.current].added;
    assert SamePeople([u], [u]);
  }

  /**
    Nodes without one are reachable: when the sole assignee of the first node adds himself as the first
    command, nothing that follows ever passes the node or approves the run; with approvals alone the run
    just stays there.
   */
  lemma StuckFromTheStart(input: Input, at: int, done: int, id: string, u: string, comment: string, events: seq<Event>, role: bool)
    requires ValidInput(input) && input.nodes[0].assignees == [u] && u != "" && id != "" && comment != ""
    ensures var e := Signal(at, Command(id, AddSign, u, comment, false, [u], "all", "", at), true, true, at);
            var s := Step(Begin(input, at, done), e);
            && Live(s) && s.current == 0
            && |Run(s, events).nodes| == |input.nodes| && Run(s, events).nodes[0].status != Approved && Run(s, events).status != AllApproved
            && ((forall k :: 0 <= k < |events| ==> OnlySigns(events[k], role)) ==>
                  Run(s, events).status == Running && Run(s, events).current == 0 && Run(s, events).completions == [])
  {
    var e := Signal(at, Command(id, AddSign, u, comment, false, [u], "all", "", at), true, true, at);
    var s := Step(Begin(input, at, done), e);
    PositionHolds(input, at, done, []);
    assert Run(Begin(input, at, done), []) == Begin(input, at, done);
    StepKeepsPosition(Begin(input, at, done), e);
    hide Step;
    OnlyOne(u);
    AddedHimself(Begin(input, at, done), e, u);
    SoleAssigneeAddsHimself(Begin(input, at, done), e, u, role);
    hide Begin, Run, Closable, OnlySigns;
    BarredForever(s, events, 0);
    if forall k :: 0 <= k < |events| ==> OnlySigns(events[k], role) {
      StuckForever(s, events, role);
    }
  }
}

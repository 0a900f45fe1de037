/**
  The contract approval workflow (internal/workflows/contract_approval.go): approval nodes passed
  one after the other, driven by signalled commands and by a timer. `Step` says what one signal or
  one timer wake-up makes of the state; the class `Workflow` carries it out in place.

  An activity that fails ends the run; a command record or a completion that succeeds is assumed
  to happen once. Notifications never affect the state.
 */
module Approval {
  import opened Wrappers

  const DEFAULT_TIMEOUT := 72 * 3600
  const DEFAULT_REMINDER := 24 * 3600

  datatype NodeStatus = Pending | Active | Approved | Rejected
  datatype RunStatus = Running | AllApproved | Declined | Withdrawn | Expired
  datatype ContractStatus = DraftContract | ActiveContract

  datatype Node = Node(id: string, assignees: seq<string>, countersign: string, timeout: int)

  /** A node of a run: its roster, who approved it since its last reset, and its times in seconds. */
  datatype Runtime = Runtime(node: Node, status: NodeStatus, approvedBy: set<string>, added: seq<string>,
                             startedAt: int, completedAt: int)

  datatype Action = Approve | Reject | AddSign | Transfer | Return | Withdraw | Urge | Comment | Unsupported

  datatype Command = Command(id: string, action: Action, actor: string, comment: string, roleNodeOrSign: bool,
                             targets: seq<string>, countersign: string, targetNode: string, occurredAt: int)

  datatype Completion = Completion(status: RunStatus, target: ContractStatus)

  datatype State = State(applicant: string, defaultTimeout: int, interval: int,
                         status: RunStatus, current: nat, nodes: seq<Runtime>, processed: seq<string>,
                         nextReminder: int, completions: seq<Completion>, failed: bool)
  {
    predicate Ended() {
      failed || status != Running
    }
  }

  /**
    A signal handled at a time, and when its activities were done; or the timer firing at a time.
    `recorded` and `completed` say whether the activities that store a command or the completion succeed.
   */
  datatype Event =
    | Signal(at: int, command: Command, recorded: bool, completed: bool, done: int)
    | Wake(at: int, completed: bool)

  // ----- Small helpers -----

  /** The values without empty ones and repetitions, in order. */
  function Unique(values: seq<string>): seq<string> {
    if values == [] then []
    else
      var front, last := Unique(values[..|values| - 1]), values[|values| - 1];
      if last == "" || last in front then front else front + [last]
  }

  function AppendAbsent(list: seq<string>, targets: seq<string>): seq<string> {
    if targets == [] then list
    else
      var front, last := AppendAbsent(list, targets[..|targets| - 1]), targets[|targets| - 1];
      if last in front then front else front + [last]
  }

  function ReplaceFirst(list: seq<string>, a: string, b: string): seq<string> {
    if list == [] then []
    else if list[0] == a then [b] + list[1..]
    else [list[0]] + ReplaceFirst(list[1..], a, b)
  }

  method UniqueValues(values: seq<string>) returns (result: seq<string>)
    ensures result == Unique(values)
  {
    var seen: set<string> := {};
    result := [];
    for i := 0 to |values|
      invariant result == Unique(values[..i])
      invariant forall v :: v in seen <==> v in result
    {
      assert values[..i + 1][..i] == values[..i];
      if values[i] == "" || values[i] in seen {
        continue;
      }
      seen := seen + {values[i]};
      result := result + [values[i]];
    }
    assert values[..|values|] == values;
  }

  lemma {:induction false} FirstReplaced(list: seq<string>, a: string, b: string, i: nat)
    requires i <= |list| && forall k :: 0 <= k < i ==> list[k] != a
    ensures i == |list| ==> ReplaceFirst(list, a, b) == list
    ensures i < |list| && list[i] == a ==> ReplaceFirst(list, a, b) == list[i := b]
  {
    if i > 0 {
      FirstReplaced(list[1..], a, b, i - 1);
    }
  }

  method ReplaceIn(list: seq<string>, a: string, b: string) returns (r: seq<string>)
    ensures r == ReplaceFirst(list, a, b)
  {
    for i := 0 to |list|
      invariant forall k :: 0 <= k < i ==> list[k] != a
    {
      if list[i] == a {
        FirstReplaced(list, a, b, i);
        return list[i := b];
      }
    }
    FirstReplaced(list, a, b, |list|);
    return list;
  }

  // ----- Whether a node has passed -----

  predicate Passed(n: Runtime, roleNodeOrSign: bool) {
    if n.added == [] then
      n.node.countersign == "any" || roleNodeOrSign || forall u :: u in n.node.assignees ==> u in n.approvedBy
    else
      && (exists u :: u in n.node.assignees && u !in n.added && u in n.approvedBy)
      && if n.node.countersign == "any" then exists u :: u in n.added && u in n.approvedBy
         else forall u :: u in n.added ==> u in n.approvedBy
  }

  method ApprovalNodePassed(n: Runtime, roleNodeOrSign: bool) returns (passed: bool)
    ensures passed == Passed(n, roleNodeOrSign)
  {
    if |n.added| == 0 {
      if n.node.countersign == "any" || roleNodeOrSign {
        return true;
      }
      passed := AllIn(n.node.assignees, n.approvedBy);
      return;
    }
    var originalApproved := false;
    for i := 0 to |n.node.assignees|
      invariant !originalApproved
      invariant forall k :: 0 <= k < i ==> n.node.assignees[k] in n.added || n.node.assignees[k] !in n.approvedBy
    {
      if n.node.assignees[i] !in n.added && n.node.assignees[i] in n.approvedBy {
        originalApproved := true;
        break;
      }
    }
    if !originalApproved {
      return false;
    }
    if n.node.countersign == "any" {
      for i := 0 to |n.added|
        invariant forall k :: 0 <= k < i ==> n.added[k] !in n.approvedBy
      {
        if n.added[i] in n.approvedBy {
          return true;
        }
      }
      return false;
    }
    passed := AllIn(n.added, n.approvedBy);
  }

  method AllIn(list: seq<string>, approvedBy: set<string>) returns (all: bool)
    ensures all <==> forall u :: u in list ==> u in approvedBy
  {
    for i := 0 to |list|
      invariant forall k :: 0 <= k < i ==> list[k] in approvedBy
    {
      if list[i] !in approvedBy {
        assert list[i] in list;
        return false;
      }
    }
    return true;
  }

  // ----- One command -----

  predicate Malformed(c: Command) {
    || c.id == "" || c.actor == ""
    || (c.action in {Reject, AddSign, Transfer, Return, Withdraw} && c.comment == "")
  }

  /** What a command makes of the state, or that it is refused. */
  datatype Verdict = Refused | Changed(s: State, terminal: bool)

  function WithNode(s: State, n: Runtime): State
    requires s.current < |s.nodes|
  {
    s.(nodes := s.nodes[s.current := n])
  }

  function ApplyApprove(s: State, c: Command): Verdict
    requires s.current < |s.nodes|
  {
    if c.actor == s.applicant then Refused
    else
      var n := s.nodes[s.current];
      var signed := n.(approvedBy := n.approvedBy + {c.actor});
      if Passed(signed, c.roleNodeOrSign) then
        Changed(WithNode(s, signed.(status := Approved, completedAt := c.occurredAt)).(current := s.current + 1), false)
      else Changed(WithNode(s, signed), false)
  }

  function ApplyAddSign(s: State, c: Command): Verdict
    requires s.current < |s.nodes|
  {
    var n, targets := s.nodes[s.current], Unique(c.targets);
    if targets == [] || c.countersign !in ["all", "any"] then Refused
    else
      var node := n.node.(assignees := AppendAbsent(n.node.assignees, targets), countersign := c.countersign);
      Changed(WithNode(s, n.(node := node, added := AppendAbsent(n.added, targets), approvedBy := n.approvedBy + {c.actor})), false)
  }

  function ApplyTransfer(s: State, c: Command): Verdict
    requires s.current < |s.nodes|
  {
    var n, targets := s.nodes[s.current], Unique(c.targets);
    if (c.targetNode != "" && c.targetNode != n.node.id) || |targets| != 1 then Refused
    else
      var node := n.node.(assignees := ReplaceFirst(n.node.assignees, c.actor, targets[0]));
      Changed(WithNode(s, n.(node := node, added := ReplaceFirst(n.added, c.actor, targets[0]),
                             approvedBy := n.approvedBy - {c.actor})), false)
  }

  /** The first approved node before `end` with the given id, from i on; `end` if there is none. */
  function Historic(nodes: seq<Runtime>, id: string, i: nat, end: nat): (r: nat)
    requires i <= end <= |nodes|
    ensures i <= r <= end
    decreases end - i
  {
    if i == end || (nodes[i].node.id == id && nodes[i].status == Approved) then i else Historic(nodes, id, i + 1, end)
  }

  function Reset(n: Runtime): Runtime {
    n.(status := Pending, approvedBy := {}, startedAt := 0, completedAt := 0)
  }

  /** Nodes from..to taken back to pending. */
  function ResetRange(nodes: seq<Runtime>, from: nat, to: nat): (r: seq<Runtime>)
    ensures |r| == |nodes|
  {
    seq(|nodes|, i requires 0 <= i < |nodes| => if from <= i <= to then Reset(nodes[i]) else nodes[i])
  }

  function ApplyReturn(s: State, c: Command): Verdict
    requires s.current < |s.nodes|
  {
    var target := Historic(s.nodes, c.targetNode, 0, s.current);
    if target == s.current then Refused
    else Changed(s.(nodes := ResetRange(s.nodes, target, s.current), current := target), false)
  }

  function Apply(s: State, c: Command): Verdict
    requires s.current < |s.nodes|
  {
    if c.action == Withdraw then
      if c.actor == s.applicant then Changed(s.(status := RunStatus.Withdrawn), true) else Refused
    else if c.action in {Urge, Comment} then Changed(s, false)
    else if c.actor !in s.nodes[s.current].node.assignees then Refused
    else
      match c.action
      case Approve => ApplyApprove(s, c)
      case Reject => Changed(WithNode(s, s.nodes[s.current].(status := NodeStatus.Rejected)).(status := Declined), true)
      case AddSign => ApplyAddSign(s, c)
      case Transfer => ApplyTransfer(s, c)
      case Return => ApplyReturn(s, c)
      case _ => Refused
  }

  // ----- One event -----

  /** The node entered next becomes active. */
  function Entered(s: State, at: int): State
    requires s.current < |s.nodes|
  {
    WithNode(s, s.nodes[s.current].(status := Active, startedAt := at))
  }

  function Completed(s: State, target: ContractStatus, success: bool): State {
    if success then s.(completions := s.completions + [Completion(s.status, target)]) else s.(failed := true)
  }

  /** What follows a command that changed the state: the next node, the record, the completion. */
  function Followed(s: State, before: nat, terminal: bool, e: Event): State
    requires e.Signal? && s.current <= |s.nodes|
  {
    var entering := !terminal && s.current != before && s.current < |s.nodes|;
    var s1 := if entering then Entered(s, e.at) else s;
    var s2 := s1.(processed := s1.processed + [e.command.id]);
    if !e.recorded then s2.(failed := true)
    else if terminal then Completed(s2, DraftContract, e.completed)
    else if s2.current == before then s2
    else if entering then s2.(nextReminder := e.done + s2.interval)
    else Completed(s2.(status := AllApproved), ActiveContract, e.completed)
  }

  /** A signal that leaves everything as it is. */
  predicate Ignored(s: State, c: Command)
    requires s.current < |s.nodes|
  {
    Malformed(c) || c.id in s.processed || Apply(s, c).Refused?
  }

  function Timeout(s: State): int
    requires s.current < |s.nodes|
  {
    var t := s.nodes[s.current].node.timeout;
    if t <= 0 then s.defaultTimeout else t
  }

  function Deadline(s: State): int
    requires s.current < |s.nodes|
  {
    s.nodes[s.current].startedAt + Timeout(s)
  }

  /** When the timer is set to fire; it never fires earlier. */
  function WakeAt(s: State): int
    requires s.current < |s.nodes|
  {
    if s.nextReminder < Deadline(s) then s.nextReminder else Deadline(s)
  }

  function Step(s: State, e: Event): State {
    if s.Ended() || s.current >= |s.nodes| then s
    else
      match e
      case Signal(_, c, _, _, _) =>
        if Ignored(s, c) then s
        else
          var v := Apply(s, c);
          Followed(v.s, s.current, v.terminal, e)
      case Wake(at, completed) =>
        if at < WakeAt(s) then s
        else if at >= Deadline(s) then Completed(s.(status := Expired), DraftContract, completed)
        else s.(nextReminder := at + s.interval)
  }

  // ----- The start of a run -----

  datatype Input = Input(approvalId: string, contractId: string, applicant: string, nodes: seq<Node>,
                         defaultTimeout: int, interval: int)

  predicate ValidInput(input: Input) {
    input.approvalId != "" && input.contractId != "" && input.applicant != "" && input.nodes != []
  }

  function InitialNode(n: Node): Runtime {
    Runtime(if n.countersign == "" then n.(countersign := "all") else n, Pending, {}, [], 0, 0)
  }

  /** The state once the first node is active and its timer is set. */
  function Begin(input: Input, at: int, done: int): State
    requires ValidInput(input)
  {
    var timeout := if input.defaultTimeout <= 0 then DEFAULT_TIMEOUT else input.defaultTimeout;
    var interval := if input.interval <= 0 then DEFAULT_REMINDER else input.interval;
    Entered(State(input.applicant, timeout, interval, Running, 0,
                  seq(|input.nodes|, i requires 0 <= i < |input.nodes| => InitialNode(input.nodes[i])),
                  [], done + interval, [], false), at)
  }

  // ----- The workflow -----

  class Workflow {
    const applicant: string
    const defaultTimeout: int
    const interval: int
    const nodes: array<Runtime>
    var status: RunStatus
    var current: nat
    var processed: seq<string>
    var nextReminder: int
    var completions: seq<Completion>
    var failed: bool

    ghost function View(): State
      reads this, nodes
    {
      State(applicant, defaultTimeout, interval, status, current, nodes[..], processed, nextReminder, completions, failed)
    }

    constructor (input: Input, at: int, done: int)
      requires ValidInput(input)
      ensures View() == Begin(input, at, done) && fresh(nodes)
    {
      applicant := input.applicant;
      defaultTimeout := if input.defaultTimeout <= 0 then DEFAULT_TIMEOUT else input.defaultTimeout;
      interval := if input.interval <= 0 then DEFAULT_REMINDER else input.interval;
      nodes := new Runtime[|input.nodes|](i requires 0 <= i < |input.nodes| => InitialNode(input.nodes[i]));
      status, current, processed, completions, failed := Running, 0, [], [], false;
      nextReminder := done + if input.interval <= 0 then DEFAULT_REMINDER else input.interval;
      new;
      assert nodes[..] == seq(|input.nodes|, i requires 0 <= i < |input.nodes| => InitialNode(input.nodes[i]));
      nodes[0] := nodes[0].(status := Active, startedAt := at);
    }

    /** Refuses an invalid input; otherwise the run begins. */
    static method Start(input: Input, at: int, done: int) returns (w: Option<Workflow>)
      ensures w.Some? <==> input.approvalId != "" && input.contractId != "" && input.applicant != "" && input.nodes != []
      ensures w.Some? ==> fresh(w.value) && fresh(w.value.nodes) && w.value.View() == Begin(input, at, done)
    {
      if input.approvalId == "" || input.contractId == "" || input.applicant == "" || |input.nodes| == 0 {
        return None;
      }
      var run := new Workflow(input, at, done);
      return Some(run);
    }

    /** Applies a command in place. */
    method ApplyCommand(c: Command) returns (changed: bool, terminal: bool)
      requires current < nodes.Length
      modifies this`status, this`current, nodes
      ensures !changed ==> !terminal && View() == old(View()) && Apply(old(View()), c) == Refused
      ensures changed ==> Apply(old(View()), c) == Changed(View(), terminal)
    {
      hide Passed, Unique, AppendAbsent, ReplaceFirst;
      if c.action == Withdraw {
        if c.actor != applicant {
          return false, false;
        }
        status := RunStatus.Withdrawn;
        return true, true;
      }
      if c.action == Urge || c.action == Comment {
        return true, false;
      }
      if c.actor !in nodes[current].node.assignees {
        return false, false;
      }
      match c.action
      case Approve =>
        changed := ApplyApproval(c);
        return changed, false;
      case Reject =>
        nodes[current] := nodes[current].(status := NodeStatus.Rejected);
        status := Declined;
        return true, true;
      case AddSign =>
        changed := ApplySigners(c);
        return changed, false;
      case Transfer =>
        changed := ApplyHandover(c);
        return changed, false;
      case Return =>
        changed := ApplyReset(c);
        return changed, false;
      case _ =>
        return false, false;
    }

    method ApplyApproval(c: Command) returns (changed: bool)
      requires current < nodes.Length
      modifies this`current, nodes
      ensures !changed ==> View() == old(View()) && ApplyApprove(old(View()), c) == Refused
      ensures changed ==> ApplyApprove(old(View()), c) == Changed(View(), false)
    {
      hide Passed;
      if c.actor == applicant {
        return false;
      }
      nodes[current] := nodes[current].(approvedBy := nodes[current].approvedBy + {c.actor});
      var passed := ApprovalNodePassed(nodes[current], c.roleNodeOrSign);
      if passed {
        nodes[current] := nodes[current].(status := Approved, completedAt := c.occurredAt);
        current := current + 1;
      }
      return true;
    }

    method ApplySigners(c: Command) returns (changed: bool)
      requires current < nodes.Length
      modifies nodes
      ensures !changed ==> View() == old(View()) && ApplyAddSign(old(View()), c) == Refused
      ensures changed ==> ApplyAddSign(old(View()), c) == Changed(View(), false)
    {
      var targets := UniqueValues(c.targets);
      if |targets| == 0 || (c.countersign != "all" && c.countersign != "any") {
        return false;
      }
      hide Unique;
      var n := nodes[current];
      var assignees, added := n.node.assignees, n.added;
      for i := 0 to |targets|
        invariant assignees == AppendAbsent(n.node.assignees, targets[..i]) && added == AppendAbsent(n.added, targets[..i])
      {
        assert targets[..i + 1][..i] == targets[..i];
        if targets[i] !in assignees {
          assignees := assignees + [targets[i]];
        }
        if targets[i] !in added {
          added := added + [targets[i]];
        }
      }
      assert targets[..|targets|] == targets;
      nodes[current] := n.(node := n.node.(assignees := assignees, countersign := c.countersign), added := added,
                           approvedBy := n.approvedBy + {c.actor});
      return true;
    }

    method ApplyHandover(c: Command) returns (changed: bool)
      requires current < nodes.Length
      modifies nodes
      ensures !changed ==> View() == old(View()) && ApplyTransfer(old(View()), c) == Refused
      ensures changed ==> ApplyTransfer(old(View()), c) == Changed(View(), false)
    {
      hide Unique, ReplaceFirst;
      var n := nodes[current];
      if c.targetNode != "" && n.node.id != c.targetNode {
        return false;
      }
      var targets := UniqueValues(c.targets);
      if |targets| != 1 {
        return false;
      }
      var assignees := ReplaceIn(n.node.assignees, c.actor, targets[0]);
      var added := ReplaceIn(n.added, c.actor, targets[0]);
      nodes[current] := n.(node := n.node.(assignees := assignees), added := added, approvedBy := n.approvedBy - {c.actor});
      return true;
    }

    method ApplyReset(c: Command) returns (changed: bool)
      requires current < nodes.Length
      modifies this`current, nodes
      ensures !changed ==> View() == old(View()) && ApplyReturn(old(View()), c) == Refused
      ensures changed ==> ApplyReturn(old(View()), c) == Changed(View(), false)
    {
      var target := current;
      for i := 0 to current
        invariant target == current && Historic(nodes[..], c.targetNode, 0, current) == Historic(nodes[..], c.targetNode, i, current)
      {
        if nodes[i].node.id == c.targetNode && nodes[i].status == Approved {
          target := i;
          break;
        }
      }
      if target == current {
        return false;
      }
      ghost var before := nodes[..];
      for i := target to current + 1
        invariant current == old(current)
        invariant forall k :: 0 <= k < nodes.Length ==> nodes[k] == if target <= k < i then Reset(before[k]) else before[k]
      {
        nodes[i] := nodes[i].(status := Pending, approvedBy := {}, startedAt := 0, completedAt := 0);
      }
      assert nodes[..] == ResetRange(before, target, current);
      current := target;
      return true;
    }

    method Complete(target: ContractStatus, success: bool)
      modifies this`completions, this`failed
      ensures View() == Completed(old(View()), target, success)
    {
      if success {
        completions := completions + [Completion(status, target)];
      } else {
        failed := true;
      }
    }

    /** One turn of the loop that received a signal. */
    method HandleSignal(e: Event)
      requires e.Signal?
      modifies this, nodes
      ensures View() == Step(old(View()), e)
    {
      hide Apply;
      if failed || status != Running || current >= nodes.Length {
        return;
      }
      var c := e.command;
      if Malformed(c) || c.id in processed {
        return;
      }
      var previous := current;
      var changed, terminal := ApplyCommand(c);
      if !changed {
        return;
      }
      var advanced := !terminal && current != previous && current < nodes.Length;
      if advanced {
        nodes[current] := nodes[current].(status := Active, startedAt := e.at);
      }
      processed := processed + [c.id];
      if !e.recorded {
        failed := true;
        return;
      }
      if terminal {
        Complete(DraftContract, e.completed);
      } else if advanced {
        nextReminder := e.done + interval;
      } else if current != previous {
        status := AllApproved;
        Complete(ActiveContract, e.completed);
      }
    }

    /** One turn of the loop in which the timer fired. */
    method HandleWake(e: Event)
      requires e.Wake?
      modifies this`status, this`nextReminder, this`completions, this`failed
      ensures View() == Step(old(View()), e)
    {
      if failed || status != Running || current >= nodes.Length {
        return;
      }
      var timeout := nodes[current].node.timeout;
      if timeout <= 0 {
        timeout := defaultTimeout;
      }
      var deadline := nodes[current].startedAt + timeout;
      var wakeAt := if nextReminder < deadline then nextReminder else deadline;
      if e.at < wakeAt {
        return;
      }
      if e.at >= deadline {
        status := Expired;
        Complete(DraftContract, e.completed);
        return;
      }
      nextReminder := e.at + interval;
    }
  }
}

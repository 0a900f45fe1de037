/**
  The manual confirmation of an import: whose commands an approval rests on, and what a round over
  the stored commands (internal/infrastructure/mysql/import_confirmation.go) makes of them.
 */
module ImportSigning {
  import opened Wrappers
  import opened ImportBatch
  import opened ImportLedger
  import opened ImportRuns

  // ----- Commands and roles -----

  /** The k-th command was given under role r by one of the role's assignees. */
  predicate Speaks(c: Confirmation, k: nat, r: string) {
    k < |c.commands| && r in c.commands[k].roles && r in c.assignees && c.commands[k].actor in c.assignees[r]
  }

  predicate ApprovedBy(c: Confirmation, k: nat, r: string) {
    Speaks(c, k, r) && c.commands[k].action == Approve
  }

  /** Somebody entitled rejects. */
  predicate Objection(c: Confirmation, k: nat) {
    k < |c.commands| && c.commands[k].action == Reject && exists r :: r in c.commands[k].roles && Speaks(c, k, r)
  }

  predicate RoleApproved(c: Confirmation, r: string) {
    exists k :: 0 <= k < |c.commands| && ApprovedBy(c, k, r)
  }

  predicate Objected(c: Confirmation) {
    exists k :: 0 <= k < |c.commands| && Objection(c, k)
  }

  predicate Distinct(list: seq<string>) {
    forall i, j :: 0 <= i < j < |list| ==> list[i] != list[j]
  }

  function Members(list: seq<string>): set<string> {
    set r | r in list
  }

  /** The roles counted as approved are roles of the confirmation, each once, and each on a command. */
  predicate CountedOk(c: Confirmation) {
    Distinct(c.approvedRoles) && forall r :: r in c.approvedRoles ==> r in c.roles && RoleApproved(c, r)
  }

  /** A manual confirmation has its assignees by role; once approved, every role has approved and nobody objected. */
  predicate SigningOk(c: Confirmation) {
    c.decision == Manual ==>
      && c.roles != [] && c.assignees.Keys == Members(c.roles) && (forall r :: r in c.roles ==> c.assignees[r] != {})
      && CountedOk(c)
      && (c.state == Approved ==> (forall r :: r in c.roles ==> RoleApproved(c, r)) && !Objected(c))
  }

  predicate BatchSigning(b: Batch) {
    b.confirmation.Some? ==> SigningOk(b.confirmation.value)
  }

  // ----- Counting the commands -----

  /** What counting one command's first n roles adds. */
  lemma {:induction false} GrantedExactly(c: Confirmation, command: Command, n: nat)
    requires n <= |command.roles| && Distinct(c.approvedRoles)
    ensures var g := Granted(c, command, n);
            && Distinct(g)
            && forall r :: r in g <==> (r in c.approvedRoles || (command.action == Approve && r in c.assignees
                                                                 && command.actor in c.assignees[r] && r in command.roles[..n]))
  {
    if n > 0 {
      GrantedExactly(c, command, n - 1);
      assert command.roles[..n] == command.roles[..n - 1] + [command.roles[n - 1]];
    }
  }

  /** What counting the k-th command adds, when the confirmation is otherwise as it was. */
  lemma {:induction false} CountedNext(c: Confirmation, before: Confirmation, k: nat)
    requires k < |c.commands| && before == c.(state := before.state, approvedRoles := before.approvedRoles) && Distinct(before.approvedRoles)
    ensures var g := Granted(before, c.commands[k], |c.commands[k].roles|);
            Distinct(g) && forall r :: r in g <==> (r in before.approvedRoles || ApprovedBy(c, k, r))
    ensures Objection(c, k) <==> c.commands[k].action == Reject && Eligible(before, c.commands[k])
  {
    var command := c.commands[k];
    GrantedExactly(before, command, |command.roles|);
    assert command.roles[..|command.roles|] == command.roles;
  }

  /** An objection among the first n commands ends the count. */
  lemma {:induction false} TallyObjects(c: Confirmation, n: nat)
    requires n <= |c.commands| && c.state == PendingApproval && Distinct(c.approvedRoles)
    ensures var t := Tally(c, n);
            && t == c.(state := t.state, approvedRoles := t.approvedRoles) && Distinct(t.approvedRoles)
            && t.state in {PendingApproval, Rejected} && (t.state == Rejected <==> exists k :: 0 <= k < n && Objection(c, k))
  {
    if n > 0 {
      TallyObjects(c, n - 1);
      CountedNext(c, Tally(c, n - 1), n - 1);
      hide Granted, Objection, Eligible, Speaks, ApprovedBy;
      assert Objection(c, n - 1) ==> exists k :: 0 <= k < n && Objection(c, k);
    }
  }

  /** The roles counted are those counted before and those the first n commands approve, as long as nobody objects. */
  lemma {:induction false} TallyApproves(c: Confirmation, n: nat)
    requires n <= |c.commands| && c.state == PendingApproval && Distinct(c.approvedRoles)
    ensures var t := Tally(c, n);
            && (forall r :: r in t.approvedRoles ==> r in c.approvedRoles || exists k :: 0 <= k < n && ApprovedBy(c, k, r))
            && (forall r :: r in c.approvedRoles ==> r in t.approvedRoles)
            && (t.state == PendingApproval ==> forall r, k :: 0 <= k < n && ApprovedBy(c, k, r) ==> r in t.approvedRoles)
  {
    if n > 0 {
      TallyApproves(c, n - 1);
      TallyObjects(c, n - 1);
      CountedNext(c, Tally(c, n - 1), n - 1);
      hide Granted, Objection, Eligible, ApprovedBy, Distinct;
    }
  }

  // ----- What operations keep -----

  lemma {:induction false} MembersCount(list: seq<string>)
    ensures |Members(list)| <= |list|
    ensures Distinct(list) ==> |Members(list)| == |list|
  {
    if list != [] {
      var front, last := list[..|list| - 1], list[|list| - 1];
      MembersCount(front);
      assert list == front + [last];
      assert Members(list) == Members(front) + {last};
      if Distinct(list) {
        assert last !in Members(front);
      }
    }
  }

  /** As many different approved roles as roles are all of them. */
  lemma {:induction false} AllCounted(approved: seq<string>, roles: seq<string>)
    requires Distinct(approved) && (forall r :: r in approved ==> r in roles)
    ensures |approved| == |roles| ==> forall r :: r in roles ==> r in approved
    ensures (forall r :: r in roles ==> r in approved) && Distinct(roles) ==> |approved| == |roles|
  {
    MembersCount(approved);
    MembersCount(roles);
    assert Members(approved) <= Members(roles);
    if |approved| == |roles| {
      SameSize(Members(approved), Members(roles));
      forall r | r in roles ensures r in approved {
        assert r in Members(roles);
      }
    }
    if forall r :: r in roles ==> r in approved {
      assert Members(roles) <= Members(approved);
      assert Members(roles) == Members(approved);
    }
  }

  lemma {:induction false} SameSize(a: set<string>, b: set<string>)
    requires a <= b && |a| >= |b|
    ensures a == b
  {
    assert |b - a| == |b| - |a|;
  }

  /** What the count of all commands makes of a confirmation in order. */
  lemma {:induction false} TallyCounts(c: Confirmation)
    requires SigningOk(c) && c.decision == Manual
    ensures var t := Tally(c.(state := PendingApproval), |c.commands|);
            && t == c.(state := t.state, approvedRoles := t.approvedRoles) && t.state in {PendingApproval, Rejected}
            && CountedOk(t) && (t.state == Rejected <==> Objected(c))
            && (t.state == PendingApproval ==> forall r :: r in t.approvedRoles <==> r in c.roles && RoleApproved(c, r))
            && (t.state == PendingApproval && |t.approvedRoles| == |c.roles| ==> forall r :: r in c.roles ==> RoleApproved(c, r))
            && (t.state == PendingApproval && Distinct(c.roles) && (forall r :: r in c.roles ==> RoleApproved(c, r)) ==>
                  |t.approvedRoles| == |c.roles|)
  {
    var p, n := c.(state := PendingApproval), |c.commands|;
    TallyObjects(p, n);
    TallyApproves(p, n);
    SameCommands(c, p);
    var t := Tally(p, n);
    SameCommands(c, t);
    forall r | r in t.approvedRoles ensures r in c.roles && RoleApproved(c, r) {
      if r !in c.approvedRoles {
        var k :| 0 <= k < n && ApprovedBy(p, k, r);
        assert r in c.assignees && r in Members(c.roles);
      }
    }
    if t.state == PendingApproval {
      forall r | r in c.roles && RoleApproved(c, r) ensures r in t.approvedRoles {
        var k :| 0 <= k < n && ApprovedBy(p, k, r);
      }
    }
    AllCounted(t.approvedRoles, c.roles);
    hide Tally, ApprovedBy, Objection;
  }

  /** Commands and assignees decide who approved and objected. */
  lemma {:induction false} SameCommands(c: Confirmation, d: Confirmation)
    requires d.commands == c.commands && d.assignees == c.assignees
    ensures forall k, r :: ApprovedBy(d, k, r) == ApprovedBy(c, k, r)
    ensures forall k :: Objection(d, k) == Objection(c, k)
    ensures forall r :: RoleApproved(d, r) == RoleApproved(c, r)
    ensures Objected(d) == Objected(c)
  {
    forall k ensures Objection(d, k) == Objection(c, k) {
      assert forall r :: Speaks(d, k, r) == Speaks(c, k, r);
    }
    hide Objection;
  }

  /** What a round can make of the confirmation. */
  lemma {:induction false} RoundCases(b: Batch, stores: Stores, revision: nat, digest: string, ready: set<nat>, now: int)
    requires AdvanceConfirmation(b, stores, revision, digest, ready, now).Ok?
    ensures b.confirmation.Some?
    ensures var c, next := b.confirmation.value, AdvanceConfirmation(b, stores, revision, digest, ready, now).value.batch;
            var t := Tally(c.(state := PendingApproval), |c.commands|);
            && next.confirmation.Some?
            && (|| next.confirmation.value == c
                || (c.state in {Starting, PendingApproval} && next.confirmation.value in {c.(state := Lapsed), c.(state := Withdrawn), t})
                || (next.confirmation.value == t.(state := Approved) && t.state == PendingApproval && |t.approvedRoles| == |c.roles|))
  {
    hide Tally, WithdrawnByCreator, ConfirmItems;
  }

  /** A round keeps the signing in order: it approves only on everybody's approval and nobody's objection. */
  lemma {:induction false} RoundKeepsSigning(b: Batch, stores: Stores, revision: nat, digest: string, ready: set<nat>, now: int)
    requires BatchSigning(b) && AdvanceConfirmation(b, stores, revision, digest, ready, now).Ok?
    ensures BatchSigning(AdvanceConfirmation(b, stores, revision, digest, ready, now).value.batch)
  {
    RoundCases(b, stores, revision, digest, ready, now);
    hide AdvanceConfirmation, Tally;
    var c := b.confirmation.value;
    var t := Tally(c.(state := PendingApproval), |c.commands|);
    var d := AdvanceConfirmation(b, stores, revision, digest, ready, now).value.batch.confirmation.value;
    if c.decision == Manual {
      TallyCounts(c);
      hide CountedOk, RoleApproved, Objected;
      SameCommands(c, d);
      SameCounted(c, d);
      SameCounted(t, d);
    } else {
      TallyFrame(c.(state := PendingApproval), |c.commands|);
    }
  }

  lemma {:induction false} TallyFrame(c: Confirmation, n: nat)
    requires n <= |c.commands|
    ensures Tally(c, n).decision == c.decision
  {
  }

  lemma {:induction false} SameCounted(c: Confirmation, d: Confirmation)
    requires d.commands == c.commands && d.assignees == c.assignees && d.roles == c.roles
    ensures d.approvedRoles == c.approvedRoles ==> CountedOk(d) == CountedOk(c)
  {
    SameCommands(c, d);
    hide RoleApproved;
  }

  /** A submission finds somebody for every role; nobody has approved yet. */
  lemma {:induction false} FreezeSigning(b: Batch, change: ImportBatch.Change)
    requires change.FreezeBy? && Apply(b, change).Ok?
    ensures BatchSigning(Apply(b, change).value)
  {
  }

  /** A command added to those given so far. */
  lemma {:induction false} MoreCommands(c: Confirmation, d: Confirmation)
    requires c.commands <= d.commands && d.assignees == c.assignees
    ensures forall r :: RoleApproved(c, r) ==> RoleApproved(d, r)
  {
    forall r | RoleApproved(c, r) ensures RoleApproved(d, r) {
      var k :| 0 <= k < |c.commands| && ApprovedBy(c, k, r);
      assert ApprovedBy(d, k, r);
    }
  }

  lemma {:induction false} ActSigning(b: Batch, change: ImportBatch.Change)
    requires BatchSigning(b) && change.ActBy? && Apply(b, change).Ok?
    ensures BatchSigning(Apply(b, change).value)
  {
    var c, d := b.confirmation.value, Apply(b, change).value.confirmation.value;
    hide RoleApproved, Objected;
    if d != c {
      MoreCommands(c, d);
    }
  }

  lemma {:induction false} ChangeSigning(b: Batch, change: ImportBatch.Change)
    requires BatchSigning(b) && Apply(b, change).Ok?
    ensures BatchSigning(Apply(b, change).value)
  {
    if change.FreezeBy? {
      FreezeSigning(b, change);
    } else if change.ActBy? {
      ActSigning(b, change);
    } else {
      ChangeLeaves(b, change);
      hide Apply, SigningOk;
    }
  }

  lemma {:induction false} ChangeLeaves(b: Batch, change: ImportBatch.Change)
    requires Apply(b, change).Ok? && !change.FreezeBy? && !change.ActBy?
    ensures Apply(b, change).value.confirmation in {None, b.confirmation}
  {
    hide FirstStop, FindDropped, Renewed, Found, Rearmed, Terminal, AllGood;
  }

  lemma {:induction false} AutoSigning(b: Batch, stores: Stores, id: nat, policy: Policy, roles: seq<string>, digest: string, ready: set<nat>, now: int)
    requires BatchSigning(b) && AutoConfirm(b, stores, id, policy, roles, digest, ready, now).Ok?
    ensures BatchSigning(AutoConfirm(b, stores, id, policy, roles, digest, ready, now).value.batch)
  {
    hide Confirmable, RoleApproved, Objected, CountedOk;
  }

  lemma {:induction false} ExecutionLeaves(b: Batch, stores: Stores, revision: nat, epoch: nat, id: nat, offered: nat, digest: string,
                                           index: nat, ending: Ending, now: int)
    ensures forall r :: r in {Claim(b, now), MarkComplete(b, epoch, id), Finish(b, epoch, index, ending)} && r.Ok? ==>
              r.value.confirmation == b.confirmation
    ensures var r := CommitDraft(b, stores, revision, epoch, id, offered, digest, now); r.Ok? ==> r.value.batch.confirmation == b.confirmation
  {
  }

  predicate AllSigning(s: World) {
    forall id :: id in s.batches ==> BatchSigning(s.batches[id])
  }

  lemma {:induction false} NextSigning(s: World, m: Move)
    requires AllSigning(s)
    ensures AllSigning(Next(s, m))
  {
    hide Apply, CommitDraft, AdvanceConfirmation, AutoConfirm, PolicyOf, Claim, MarkComplete, Finish, Usable, SigningOk;
    var worker := if m.NewBatch? || m.Change? || m.AdvanceRound? then Idle else WorkerOf(s, m.w);
    match m
    case NewBatch(_, _, _, _) =>
    case Change(id, change) =>
      if id in s.batches && Apply(s.batches[id], change).Ok? {
        ChangeSigning(s.batches[id], change);
      }
    case ClaimBatch(_, id, now) =>
      if id in s.batches {
        ExecutionLeaves(s.batches[id], s.stores, 0, 0, 0, 0, "", 0, Done, now);
      }
    case CreateContract(w, index, offered, now) =>
      if worker.Holding? && worker.batch in s.batches && index < |worker.snapshot.items| {
        var item := worker.snapshot.items[index];
        ExecutionLeaves(s.batches[worker.batch], s.stores, worker.snapshot.revision, worker.snapshot.epoch, item.id, offered, item.digest, 0, Done, now);
      }
    case ConfirmByItself(w, index, live, liveVersion, roles, digest, ready, now) =>
      if worker.Holding? && worker.batch in s.batches && index < |worker.snapshot.items| {
        var b, policy := s.batches[worker.batch], PolicyOf(worker.snapshot.confirmation, live, liveVersion);
        if AutoConfirm(b, s.stores, worker.snapshot.items[index].id, policy, roles, digest, ready, now).Ok? {
          AutoSigning(b, s.stores, worker.snapshot.items[index].id, policy, roles, digest, ready, now);
        }
      }
    case CompleteItem(w, index) =>
      if worker.Holding? && worker.batch in s.batches && index < |worker.snapshot.items| {
        ExecutionLeaves(s.batches[worker.batch], s.stores, 0, worker.snapshot.epoch, worker.snapshot.items[index].id, 0, "", 0, Done, 0);
      }
    case EndDispatch(w, index, ending) =>
      if worker.Holding? && worker.batch in s.batches {
        ExecutionLeaves(s.batches[worker.batch], s.stores, 0, worker.snapshot.epoch, 0, 0, "", index, ending, 0);
      }
    case Crash(_) =>
    case AdvanceRound(id, revision, digest, ready, now) =>
      if id in s.batches && AdvanceConfirmation(s.batches[id], s.stores, revision, digest, ready, now).Ok? {
        RoundKeepsSigning(s.batches[id], s.stores, revision, digest, ready, now);
      }
  }

  lemma {:induction false} RunSigning(s: World, moves: seq<Move>)
    requires AllSigning(s)
    ensures AllSigning(Run(s, moves))
    decreases |moves|
  {
    hide Next, AllSigning;
    if moves != [] {
      NextSigning(s, moves[0]);
      RunSigning(Next(s, moves[0]), moves[1..]);
    }
  }

  /**
    Over every run, a manual approval rests on the approval of every role: for each there is a stored
    command that one of the role's assignees gave under it. And nobody entitled has rejected.
   */
  lemma {:induction false} ApprovalRests(moves: seq<Move>, id: string)
    requires id in Run(Start(), moves).batches
    requires var b := Run(Start(), moves).batches[id];
             b.confirmation.Some? && b.confirmation.value.decision == Manual && b.confirmation.value.state == Approved
    ensures var c := Run(Start(), moves).batches[id].confirmation.value;
            && c.roles != [] && c.assignees.Keys == Members(c.roles)
            && (forall r :: r in c.roles ==>
                  exists k :: 0 <= k < |c.commands| && ApprovedBy(c, k, r))
            && !exists k :: 0 <= k < |c.commands| && Objection(c, k)
  {
    RunSigning(Start(), moves);
    hide Run, ApprovedBy, Objection;
    assert BatchSigning(Run(Start(), moves).batches[id]);
  }

  // ----- What a round brings about -----

  /** Every item waits to be confirmed, and nothing stands in its way. */
  predicate AllConfirmable(b: Batch, stores: Stores, ready: set<nat>) {
    forall i :: 0 <= i < |b.items| ==> !b.items[i].confirmed && Confirmable(stores, b.items[i], ready)
  }

  /** The first n items are confirmed; everything else about the batch is as it was. */
  predicate ItemsSoFar(b: Batch, n: nat, after: Batch) {
    && n <= |b.items| == |after.items| && after == b.(items := after.items)
    && forall i :: 0 <= i < |b.items| ==> after.items[i] == if i < n then b.items[i].(confirmed := true) else b.items[i]
  }

  /** The contracts of the first n items have their final version; all others are as they were. */
  predicate ContractsSoFar(items: seq<Item>, stores: Stores, n: nat, after: Stores) {
    && n <= |items| && after.identities == stores.identities && after.contracts.Keys == stores.contracts.Keys
    && (forall i :: 0 <= i < n && items[i].contract.Some? && items[i].contract.value in stores.contracts ==>
          after.contracts[items[i].contract.value] == stores.contracts[items[i].contract.value].(version := 2))
    && (forall c :: c in stores.contracts && (forall i :: 0 <= i < n ==> items[i].contract != Some(c)) ==>
          after.contracts[c] == stores.contracts[c])
  }

  predicate ConfirmedSoFar(b: Batch, stores: Stores, n: nat, w: Written) {
    ItemsSoFar(b, n, w.batch) && ContractsSoFar(b.items, stores, n, w.stores)
  }

  lemma {:induction false} OwnContracts(b: Batch, stores: Stores, ready: set<nat>)
    requires ItemsApart(b.items) && AllConfirmable(b, stores, ready)
    ensures forall i, j :: 0 <= i < j < |b.items| ==> b.items[i].contract != b.items[j].contract
  {
    forall i, j | 0 <= i < j < |b.items| ensures b.items[i].contract != b.items[j].contract {
      assert Confirmable(stores, b.items[i], ready) && Confirmable(stores, b.items[j], ready);
    }
  }

  lemma {:induction false} AllGetConfirmed(b: Batch, stores: Stores, n: nat, ready: set<nat>)
    requires ItemsApart(b.items) && AllConfirmable(b, stores, ready) && n <= |b.items|
    ensures ConfirmItems(b, stores, n, ready).Ok? && ConfirmedSoFar(b, stores, n, ConfirmItems(b, stores, n, ready).value)
  {
    if n == 0 {
      NoneSoFar(b, stores);
    } else {
      AllGetConfirmed(b, stores, n - 1, ready);
      OwnContracts(b, stores, ready);
      hide Confirmable, AllConfirmable, ConfirmedSoFar, ConfirmItem, ItemsApart;
      OneMoreConfirmed(b, stores, n, ConfirmItems(b, stores, n - 1, ready).value, ready);
    }
  }

  lemma {:induction false} NoneSoFar(b: Batch, stores: Stores)
    ensures ConfirmedSoFar(b, stores, 0, Written(b, stores))
  {
  }

  lemma {:induction false} OneMoreConfirmed(b: Batch, stores: Stores, n: nat, w: Written, ready: set<nat>)
    requires 0 < n <= |b.items| && AllConfirmable(b, stores, ready) && ConfirmedSoFar(b, stores, n - 1, w)
    requires forall i, j :: 0 <= i < j < |b.items| ==> b.items[i].contract != b.items[j].contract
    ensures n <= |w.batch.items| && ConfirmItem(w.batch, w.stores, n - 1, ready).Ok?
    ensures ConfirmedSoFar(b, stores, n, ConfirmItem(w.batch, w.stores, n - 1, ready).value)
  {
    var item := b.items[n - 1];
    OneMoreItem(b, n, w.batch);
    assert Confirmable(stores, item, ready) && !item.confirmed;
    hide AllConfirmable;
    OneMoreContract(b.items, stores, n, w.stores);
    hide ContractsSoFar, ItemsSoFar;
    ConfirmsOne(w.batch, w.stores, n - 1, ready);
  }

  lemma {:induction false} ConfirmsOne(b: Batch, stores: Stores, i: nat, ready: set<nat>)
    requires i < |b.items| && !b.items[i].confirmed && Confirmable(stores, b.items[i], ready)
    ensures var c := b.items[i].contract.value;
            ConfirmItem(b, stores, i, ready) == Ok(Written(b.(items := b.items[i := b.items[i].(confirmed := true)]),
                                                           stores.(contracts := stores.contracts[c := stores.contracts[c].(version := 2)])))
  {
  }

  lemma {:induction false} OneMoreItem(b: Batch, n: nat, after: Batch)
    requires 0 < n <= |b.items| && ItemsSoFar(b, n - 1, after)
    ensures n <= |after.items| && after.items[n - 1] == b.items[n - 1]
    ensures ItemsSoFar(b, n, after.(items := after.items[n - 1 := b.items[n - 1].(confirmed := true)]))
  {
  }

  lemma {:induction false} OneMoreContract(items: seq<Item>, stores: Stores, n: nat, after: Stores)
    requires 0 < n <= |items| && ContractsSoFar(items, stores, n - 1, after)
    requires forall i, j :: 0 <= i < j < |items| ==> items[i].contract != items[j].contract
    requires items[n - 1].contract.Some? && items[n - 1].contract.value in stores.contracts
    ensures var c := items[n - 1].contract.value;
            && c in after.contracts && after.contracts[c] == stores.contracts[c]
            && ContractsSoFar(items, stores, n, after.(contracts := after.contracts[c := after.contracts[c].(version := 2)]))
  {
  }

  /** An item is confirmed once; one that cannot be confirmed stops the whole round. */
  lemma {:induction false} ConfirmOneExactly(b: Batch, stores: Stores, i: nat, ready: set<nat>)
    requires i < |b.items|
    ensures b.items[i].confirmed ==> ConfirmItem(b, stores, i, ready) == Ok(Written(b, stores))
    ensures !b.items[i].confirmed ==> (ConfirmItem(b, stores, i, ready).Ok? <==> Confirmable(stores, b.items[i], ready))
    ensures ConfirmItem(b, stores, i, ready).Err? ==> forall n :: i < n <= |b.items| && ConfirmItems(b, stores, i, ready) == Ok(Written(b, stores)) ==>
              ConfirmItems(b, stores, n, ready).Err?
  {
    if ConfirmItem(b, stores, i, ready).Err? && ConfirmItems(b, stores, i, ready) == Ok(Written(b, stores)) {
      forall n | i < n <= |b.items| ensures ConfirmItems(b, stores, n, ready).Err? {
        ErrsOn(b, stores, i, n, ready);
      }
    }
    hide Confirmable;
  }

  lemma {:induction false} ErrsOn(b: Batch, stores: Stores, i: nat, n: nat, ready: set<nat>)
    requires i < n <= |b.items| && ConfirmItems(b, stores, i + 1, ready).Err?
    ensures ConfirmItems(b, stores, n, ready).Err?
    decreases n
  {
    if n > i + 1 {
      ErrsOn(b, stores, i, n - 1, ready);
    }
  }

  /** The creator has asked to withdraw. */
  predicate CreatorWithdrew(b: Batch, c: Confirmation) {
    exists k :: 0 <= k < |c.commands| && c.commands[k].action == Withdraw && c.commands[k].actor == b.actor
  }

  predicate AllItemsComplete(b: Batch) {
    forall i :: 0 <= i < |b.items| ==> b.items[i].state == Complete
  }

  /** The state a round leaves: what happened first to end it, or whether everybody has approved. */
  function RoundState(b: Batch, c: Confirmation, now: int): ConfirmationState {
    if c.expiresAt <= now then Lapsed
    else if CreatorWithdrew(b, c) then Withdrawn
    else if !AllItemsComplete(b) then c.state
    else if Objected(c) then Rejected
    else if forall r :: r in c.roles ==> RoleApproved(c, r) then Approved
    else PendingApproval
  }

  /**
    A round of an open manual confirmation, in full: it lapses, is withdrawn or waits for the items; then
    it is rejected on an objection, approved once every role has approved, and pending otherwise. Only an approval
    confirms: every item, each with its contract.
   */
  lemma {:induction false} RoundExactly(b: Batch, stores: Stores, ready: set<nat>, now: int)
    requires BatchOk(b) && BatchSigning(b) && b.confirmation.Some? && b.confirmation.value.decision == Manual
    requires b.confirmation.value.state in {Starting, PendingApproval} && b.confirmation.value.revision == b.revision
    requires Distinct(b.confirmation.value.roles) && AllConfirmable(b, stores, ready)
    ensures var c := b.confirmation.value;
            var r := AdvanceConfirmation(b, stores, b.revision, c.digest, ready, now);
            && r.Ok? && r.value.batch.confirmation.Some? && r.value.batch.confirmation.value.state == RoundState(b, c, now)
            && (RoundState(b, c, now) == Approved ==>
                  && r.value.batch.state == TargetsPending
                  && ConfirmedSoFar(b, stores, |b.items|, Written(b.(items := r.value.batch.items), r.value.stores)))
            && (RoundState(b, c, now) != Approved ==> r.value.batch.items == b.items && r.value.stores == stores)
            && (RoundState(b, c, now) in {Lapsed, Withdrawn} ==>
                  if c.expiresAt <= now && b.state == Completed then r.value.batch.state == Completed && r.value.batch.epoch == b.epoch
                  else r.value.batch.state == Paused && r.value.batch.epoch == b.epoch + 1 && r.value.batch.leaseUntil == 0)
  {
    var c := b.confirmation.value;
    TallyCounts(c);
    AllGetConfirmed(b, stores, |b.items|, ready);
    assert CreatorWithdrew(b, c) == WithdrawnByCreator(b, c);
    hide Tally, ConfirmItems, Objected, RoleApproved, CountedOk, WithdrawnByCreator, CreatorWithdrew, BatchOk, ConfirmedSoFar, SigningOk;
    var t := Tally(c.(state := PendingApproval), |c.commands|);
    var w := ConfirmItems(b, stores, |b.items|, ready).value;
    if RoundState(b, c, now) == Approved {
      ApprovingRound(b, stores, ready, now, t, w);
    } else if c.expiresAt <= now || WithdrawnByCreator(b, c) {
      EndingRound(b, stores, ready, now);
    } else {
      CountingRound(b, stores, ready, now, t);
    }
    hide AdvanceConfirmation, AllItemsComplete;
  }

  lemma {:induction false} EndingRound(b: Batch, stores: Stores, ready: set<nat>, now: int)
    requires b.confirmation.Some? && b.confirmation.value.revision == b.revision && b.confirmation.value.state in {Starting, PendingApproval}
    requires b.confirmation.value.expiresAt <= now || WithdrawnByCreator(b, b.confirmation.value)
    ensures var c := b.confirmation.value;
            var next := c.(state := if c.expiresAt <= now then Lapsed else Withdrawn);
            AdvanceConfirmation(b, stores, b.revision, c.digest, ready, now)
            == Ok(Written(if c.expiresAt <= now && b.state == Completed then b.(version := b.version + 1, confirmation := Some(next))
                          else b.(version := b.version + 1, confirmation := Some(next), state := Paused, epoch := b.epoch + 1, leaseUntil := 0), stores))
  {
    hide Tally, ConfirmItems, WithdrawnByCreator;
  }

  lemma {:induction false} CountingRound(b: Batch, stores: Stores, ready: set<nat>, now: int, t: Confirmation)
    requires b.confirmation.Some? && b.confirmation.value.revision == b.revision && b.confirmation.value.state in {Starting, PendingApproval}
    requires b.confirmation.value.expiresAt > now && !WithdrawnByCreator(b, b.confirmation.value)
    requires t == Tally(b.confirmation.value.(state := PendingApproval), |b.confirmation.value.commands|)
    requires !AllItemsComplete(b) || t.state != PendingApproval || |t.approvedRoles| != |b.confirmation.value.roles|
    ensures var c := b.confirmation.value;
            var r := AdvanceConfirmation(b, stores, b.revision, c.digest, ready, now);
            && r.Ok? && r.value.stores == stores && r.value.batch.items == b.items && r.value.batch.confirmation.Some?
            && r.value.batch.confirmation.value.state == if AllItemsComplete(b) then t.state else c.state
  {
    hide Tally, ConfirmItems, WithdrawnByCreator;
  }

  lemma {:induction false} ApprovingRound(b: Batch, stores: Stores, ready: set<nat>, now: int, t: Confirmation, w: Written)
    requires b.confirmation.Some? && b.confirmation.value.revision == b.revision && b.confirmation.value.state in {Starting, PendingApproval}
    requires b.confirmation.value.expiresAt > now && !WithdrawnByCreator(b, b.confirmation.value) && AllItemsComplete(b)
    requires t == Tally(b.confirmation.value.(state := PendingApproval), |b.confirmation.value.commands|) && t.state == PendingApproval
    requires b.confirmation.value.roles != [] && |t.approvedRoles| == |b.confirmation.value.roles|
    requires ConfirmItems(b, stores, |b.items|, ready) == Ok(w) && w.batch == b.(items := w.batch.items)
    ensures AdvanceConfirmation(b, stores, b.revision, b.confirmation.value.digest, ready, now)
            == Ok(Written(w.batch.(version := b.version + 1, confirmation := Some(t.(state := Approved)), state := TargetsPending), w.stores))
  {
    hide Tally, ConfirmItems, WithdrawnByCreator;
  }

  /**
    In every reachable state: once every role of an open manual confirmation has approved, nobody
    entitled has rejected, the creator has not withdrawn and it has not expired, the next round over
    complete and confirmable items approves the batch, confirms every item and gives every contract its
    final version.
   */
  lemma {:induction false} NextRoundApproves(before: seq<Move>, id: string, ready: set<nat>, now: int)
    requires id in Run(Start(), before).batches
    requires var s := Run(Start(), before); var b := s.batches[id];
             && b.confirmation.Some? && b.confirmation.value.decision == Manual && b.confirmation.value.state in {Starting, PendingApproval}
             && b.confirmation.value.revision == b.revision && Distinct(b.confirmation.value.roles) && AllConfirmable(b, s.stores, ready)
             && b.confirmation.value.expiresAt > now && AllItemsComplete(b) && !CreatorWithdrew(b, b.confirmation.value)
             && !Objected(b.confirmation.value) && forall r :: r in b.confirmation.value.roles ==> RoleApproved(b.confirmation.value, r)
    ensures var s := Run(Start(), before); var b := s.batches[id];
            var t := Next(s, AdvanceRound(id, b.revision, b.confirmation.value.digest, ready, now));
            && id in t.batches && t.batches[id].state == TargetsPending && |t.batches[id].items| == |b.items|
            && t.batches[id].confirmation.Some? && t.batches[id].confirmation.value.state == Approved
            && forall i :: 0 <= i < |b.items| ==>
                 && t.batches[id].items[i] == b.items[i].(confirmed := true)
                 && b.items[i].contract.Some? && b.items[i].contract.value in t.stores.contracts
                 && t.stores.contracts[b.items[i].contract.value].version == 2
  {
    StartInv();
    RunKeeps(Start(), before);
    RunSigning(Start(), before);
    hide Run, Inv;
    var s := Run(Start(), before);
    OneBatchOk(s, id);
    RoundInWorld(s, id, ready, now);
  }

  lemma {:induction false} RoundInWorld(s: World, id: string, ready: set<nat>, now: int)
    requires id in s.batches && BatchOk(s.batches[id]) && BatchSigning(s.batches[id])
    requires var b := s.batches[id];
             && b.confirmation.Some? && b.confirmation.value.decision == Manual && b.confirmation.value.state in {Starting, PendingApproval}
             && b.confirmation.value.revision == b.revision && Distinct(b.confirmation.value.roles) && AllConfirmable(b, s.stores, ready)
             && RoundState(b, b.confirmation.value, now) == Approved
    ensures var b := s.batches[id];
            var t := Next(s, AdvanceRound(id, b.revision, b.confirmation.value.digest, ready, now));
            && id in t.batches && t.batches[id].state == TargetsPending && |t.batches[id].items| == |b.items|
            && t.batches[id].confirmation.Some? && t.batches[id].confirmation.value.state == Approved
            && forall i :: 0 <= i < |b.items| ==>
                 && t.batches[id].items[i] == b.items[i].(confirmed := true)
                 && b.items[i].contract.Some? && b.items[i].contract.value in t.stores.contracts
                 && t.stores.contracts[b.items[i].contract.value].version == 2
  {
    var b := s.batches[id];
    RoundExactly(b, s.stores, ready, now);
    var w := AdvanceConfirmation(b, s.stores, b.revision, b.confirmation.value.digest, ready, now).value;
    WrittenRound(s, id, ready, now, w);
    ConfirmedEach(b, s.stores, ready, Written(b.(items := w.batch.items), w.stores));
    hide AdvanceConfirmation, RoundState, BatchOk, BatchSigning, Distinct, AllConfirmable, ConfirmedSoFar, Next;
  }

  lemma {:induction false} WrittenRound(s: World, id: string, ready: set<nat>, now: int, w: Written)
    requires id in s.batches && s.batches[id].confirmation.Some?
    requires AdvanceConfirmation(s.batches[id], s.stores, s.batches[id].revision, s.batches[id].confirmation.value.digest, ready, now) == Ok(w)
    ensures var b := s.batches[id];
            Next(s, AdvanceRound(id, b.revision, b.confirmation.value.digest, ready, now)) == s.(batches := s.batches[id := w.batch], stores := w.stores)
  {
    hide AdvanceConfirmation;
  }

  lemma {:induction false} ConfirmedEach(b: Batch, stores: Stores, ready: set<nat>, w: Written)
    requires AllConfirmable(b, stores, ready) && ConfirmedSoFar(b, stores, |b.items|, w)
    ensures |w.batch.items| == |b.items|
    ensures forall i :: 0 <= i < |b.items| ==>
              && w.batch.items[i] == b.items[i].(confirmed := true)
              && b.items[i].contract.Some? && b.items[i].contract.value in w.stores.contracts
              && w.stores.contracts[b.items[i].contract.value].version == 2
  {
    forall i | 0 <= i < |b.items|
      ensures b.items[i].contract.Some? && b.items[i].contract.value in w.stores.contracts
      ensures w.stores.contracts[b.items[i].contract.value].version == 2
    {
      assert Confirmable(stores, b.items[i], ready);
    }
  }
}

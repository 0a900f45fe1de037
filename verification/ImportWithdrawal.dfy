/**
  What a withdrawn confirmation of an import still allows. A withdrawal raises the batch's epoch, but
  the automatic confirmation of an item (internal/infrastructure/mysql/contract_import_auto_approve.go)
  is guarded by the confirmation alone; this module says exactly when that lets an old worker through.
 */
module ImportWithdrawal {
  import opened Wrappers
  import opened ImportBatch
  import opened ImportLedger
  import opened ImportRuns

  predicate IsWithdrawn(b: Batch) {
    b.confirmation.Some? && b.confirmation.value.state == Withdrawn
  }

  /** Either nothing has been put aside, and the withdrawn confirmation is still there, or something has. */
  predicate StillWithdrawn(a: Batch, b: Batch) {
    |a.past| < |b.past| || (b.past == a.past && b.confirmation == a.confirmation && IsWithdrawn(b))
  }

  lemma {:induction false} ApplyPast(b: Batch, change: ImportBatch.Change)
    requires Apply(b, change).Ok?
    ensures |b.past| <= |Apply(b, change).value.past|
    ensures IsWithdrawn(b) ==> StillWithdrawn(b, Apply(b, change).value)
  {
    hide FirstStop, FindDropped, Renewed, Found, Rearmed, Terminal, AllGood;
  }

  lemma {:induction false} CreationPast(b: Batch, stores: Stores, revision: nat, epoch: nat, id: nat, offered: nat, digest: string, now: int)
    requires CommitDraft(b, stores, revision, epoch, id, offered, digest, now).Ok?
    ensures var next := CommitDraft(b, stores, revision, epoch, id, offered, digest, now).value.batch;
            next.past == b.past && next.confirmation == b.confirmation
  {
  }

  lemma {:induction false} AutoPast(b: Batch, stores: Stores, id: nat, policy: Policy, roles: seq<string>, digest: string, ready: set<nat>, now: int)
    requires AutoConfirm(b, stores, id, policy, roles, digest, ready, now).Ok?
    ensures var next := AutoConfirm(b, stores, id, policy, roles, digest, ready, now).value.batch;
            next.past == b.past && (IsWithdrawn(b) ==> next == b)
  {
    hide Confirmable;
  }

  lemma {:induction false} RoundPast(b: Batch, stores: Stores, revision: nat, digest: string, ready: set<nat>, now: int)
    requires AdvanceConfirmation(b, stores, revision, digest, ready, now).Ok?
    ensures var next := AdvanceConfirmation(b, stores, revision, digest, ready, now).value.batch;
            next.past == b.past && (IsWithdrawn(b) ==> next == b)
  {
    hide Tally, WithdrawnByCreator, ConfirmItems;
    if ConfirmItems(b, stores, |b.items|, ready).Ok? {
      ItemsOnly(b, stores, |b.items|, ready);
    }
  }

  lemma {:induction false} ItemsOnly(b: Batch, stores: Stores, n: nat, ready: set<nat>)
    requires n <= |b.items| && ConfirmItems(b, stores, n, ready).Ok?
    ensures ConfirmItems(b, stores, n, ready).value.batch.past == b.past
  {
    if n > 0 {
      ItemsOnly(b, stores, n - 1, ready);
    }
  }

  lemma {:induction false} ExecutionPast(b: Batch, epoch: nat, id: nat, index: nat, ending: Ending, now: int)
    ensures forall r :: r in {Claim(b, now), MarkComplete(b, epoch, id), Finish(b, epoch, index, ending)} && r.Ok? ==>
              r.value.past == b.past && r.value.confirmation == b.confirmation
  {
  }

  /** What a step makes of one batch's confirmations. */
  lemma {:induction false} NextPast(s: World, m: Move, id: string)
    requires id in s.batches
    ensures id in Next(s, m).batches && |s.batches[id].past| <= |Next(s, m).batches[id].past|
    ensures IsWithdrawn(s.batches[id]) ==> StillWithdrawn(s.batches[id], Next(s, m).batches[id])
  {
    hide Apply, CommitDraft, AdvanceConfirmation, AutoConfirm, PolicyOf, Claim, MarkComplete, Finish, Usable;
    var b := s.batches[id];
    match m
    case NewBatch(_, _, _, _) =>
    case Change(_, change) =>
      if Apply(b, change).Ok? {
        ApplyPast(b, change);
      }
    case ClaimBatch(_, _, now) => ExecutionPast(b, 0, 0, 0, Done, now);
    case CreateContract(w, index, offered, now) =>
      var worker := WorkerOf(s, w);
      if worker.Holding? && worker.batch == id && index < |worker.snapshot.items| {
        var item := worker.snapshot.items[index];
        if CommitDraft(b, s.stores, worker.snapshot.revision, worker.snapshot.epoch, item.id, offered, item.digest, now).Ok? {
          CreationPast(b, s.stores, worker.snapshot.revision, worker.snapshot.epoch, item.id, offered, item.digest, now);
        }
      }
    case ConfirmByItself(w, index, live, liveVersion, roles, digest, ready, now) =>
      var worker := WorkerOf(s, w);
      if worker.Holding? && worker.batch == id && index < |worker.snapshot.items| {
        var policy := PolicyOf(worker.snapshot.confirmation, live, liveVersion);
        if AutoConfirm(b, s.stores, worker.snapshot.items[index].id, policy, roles, digest, ready, now).Ok? {
          AutoPast(b, s.stores, worker.snapshot.items[index].id, policy, roles, digest, ready, now);
        }
      }
    case CompleteItem(w, index) =>
      var worker := WorkerOf(s, w);
      if worker.Holding? && worker.batch == id && index < |worker.snapshot.items| {
        ExecutionPast(b, worker.snapshot.epoch, worker.snapshot.items[index].id, 0, Done, 0);
      }
    case EndDispatch(w, index, ending) =>
      var worker := WorkerOf(s, w);
      if worker.Holding? && worker.batch == id {
        ExecutionPast(b, worker.snapshot.epoch, 0, index, ending, 0);
      }
    case Crash(_) =>
    case AdvanceRound(_, revision, digest, ready, now) =>
      if AdvanceConfirmation(b, s.stores, revision, digest, ready, now).Ok? {
        RoundPast(b, s.stores, revision, digest, ready, now);
      }
  }

  /**
    Over every run a withdrawn confirmation stays, and nothing is confirmed, until an edit puts it
    aside; nothing that was put aside ever comes back.
   */
  lemma {:induction false} WithdrawnStays(s: World, moves: seq<Move>, id: string)
    requires Inv(s) && id in s.batches && IsWithdrawn(s.batches[id])
    ensures var t := Run(s, moves);
            && id in t.batches && StillWithdrawn(s.batches[id], t.batches[id])
            && (|t.batches[id].past| == |s.batches[id].past| ==> forall i :: 0 <= i < |t.batches[id].items| ==> !t.batches[id].items[i].confirmed)
  {
    RunKeeps(s, moves);
    PastOver(s, moves, id);
    hide Run, Inv;
    OneBatchOk(Run(s, moves), id);
  }

  lemma {:induction false} PastOver(s: World, moves: seq<Move>, id: string)
    requires id in s.batches
    ensures id in Run(s, moves).batches && |s.batches[id].past| <= |Run(s, moves).batches[id].past|
    ensures IsWithdrawn(s.batches[id]) ==> StillWithdrawn(s.batches[id], Run(s, moves).batches[id])
    decreases |moves|
  {
    hide Next;
    if moves != [] {
      NextPast(s, moves[0], id);
      PastOver(Next(s, moves[0]), moves[1..], id);
    }
  }

  /** Everything the automatic confirmation asks of the item itself; nothing about the batch's confirmation. */
  predicate ItemInOrder(b: Batch, stores: Stores, i: nat, ready: set<nat>) {
    i < |b.items| && !b.items[i].confirmed && b.items[i].mode in {ArchiveOnly, HistoricalClosed} && Confirmable(stores, b.items[i], ready)
  }

  /** Of the batch, the automatic confirmation of such an item asks for its confirmation only: none yet, or an approved one. */
  lemma {:induction false} AutoConfirmsExactly(b: Batch, stores: Stores, i: nat, policy: Policy, roles: seq<string>, digest: string,
                                               ready: set<nat>, now: int)
    requires ItemsApart(b.items) && ItemInOrder(b, stores, i, ready) && !policy.upgrade
    ensures var r := AutoConfirm(b, stores, b.items[i].id, policy, roles, digest, ready, now);
            && (r.Ok? <==> b.confirmation.None? || b.confirmation.value.state == Approved)
            && (r.Ok? ==> i < |r.value.batch.items| && r.value.batch.items[i].confirmed)
  {
    IdFound(b.items, i);
    hide ItemsApart;
  }

  /**
    A worker that claimed a batch under AUTO confirms an item that is in order exactly when the batch
    has no confirmation, or an approved one, at that time: in whatever epoch. So after a withdrawal
    it does nothing as long as no edit puts the withdrawn confirmation aside, and does confirm once
    one has.
   */
  lemma {:induction false} StaleConfirmsExactly(s: World, moves: seq<Move>, m: Move, id: string, i: nat)
    requires Inv(s) && id in s.batches && IsWithdrawn(s.batches[id]) && m.ConfirmByItself?
    requires var worker := WorkerOf(Run(s, moves), m.w);
             && worker.Holding? && worker.batch == id && m.index < |worker.snapshot.items|
             && worker.snapshot.confirmation.Some? && worker.snapshot.confirmation.value.decision == Auto
             && id in Run(s, moves).batches && ItemInOrder(Run(s, moves).batches[id], Run(s, moves).stores, i, m.ready)
             && Run(s, moves).batches[id].items[i].id == worker.snapshot.items[m.index].id
    ensures var b, next := Run(s, moves).batches[id], Next(Run(s, moves), m);
            && id in next.batches && i < |next.batches[id].items|
            && (next.batches[id].items[i].confirmed <==> b.confirmation.None? || b.confirmation.value.state == Approved)
            && (|b.past| == |s.batches[id].past| ==> next == Run(s, moves))
  {
    RunKeeps(s, moves);
    WithdrawnStays(s, moves, id);
    var t := Run(s, moves);
    OneBatchOk(t, id);
    var snapshot := WorkerOf(t, m.w).snapshot;
    AutoConfirmsExactly(t.batches[id], t.stores, i, PolicyOf(snapshot.confirmation, m.live, m.liveVersion), m.roles, m.digest, m.ready, m.now);
    hide Run, Inv, Confirmable, ItemsApart, AutoConfirm;
  }

  // A run in which the exception happens: everything below is one batch with one item.

  function OneItem(state: ItemState, digest: string, contract: Option<nat>, confirmed: bool): Item {
    Item(1, "line", "record", "", ArchiveOnly, 2, digest, state, [], contract, confirmed)
  }

  function OneLine(newId: nat): seq<Line> {
    [Line("line", "record", "", ArchiveOnly, true, newId)]
  }

  /** AUTO as the submission pins it, with the commands given since. */
  function AutoOf(state: ConfirmationState, commands: seq<Command>): Confirmation {
    Confirmation(state, Auto, 0, 2, "digest", ["role"], ["role"], map[], commands, CONFIRMATION_LIFETIME)
  }

  function ClaimedBatch(): Batch {
    Batch("source", "user", Running, 5, 2, 3, LEASE + 1, [OneItem(Ready, "item", None, false)], Some(AutoOf(Approved, [])), [],
          true, 2, "commit", 1, TOKEN_LIFETIME, 1000)
  }

  function WithdrawnBatch(): Batch {
    Batch("source", "user", Paused, 7, 2, 4, 0, [OneItem(Created, "item", Some(7), false)],
          Some(AutoOf(Withdrawn, [Command("withdraw", "user", Withdraw, [])])), [], true, 2, "commit", 1, TOKEN_LIFETIME, 1000)
  }

  function OneContract(version: nat): Stores {
    Stores(map[("source", "record") := Identity("item", 1, Some(7))], map[7 := Contract(1, "item", version)])
  }

  lemma Manifested()
    ensures Apply(EmptyBatch("source", "user", 1000), SetManifestOf(1, "source", OneLine(1), 0))
            == Ok(DraftBatch())
  {
    var b, lines := EmptyBatch("source", "user", 1000), OneLine(1);
    assert !Stops(b.items, lines[0]);
    assert FirstStop(b.items, lines, 0) == FirstStop(b.items, lines, 1) == 1;
    assert seq(1, i requires 0 <= i < 1 => Renewed(b, lines[i])) == [OneItem(PendingItem, "", None, false)];
  }

  function DraftBatch(): Batch {
    Batch("source", "user", Draft, 2, 2, 1, 0, [OneItem(PendingItem, "", None, false)], None, [], false, 0, "", 0, 0, 1000)
  }

  function PreviewedBatch(): Batch {
    DraftBatch().(state := Previewed, version := 3, items := [OneItem(Ready, "item", None, false)], token := 1, tokenExpires := TOKEN_LIFETIME)
  }

  function QueuedBatch(): Batch {
    PreviewedBatch().(confirmation := Some(AutoOf(Approved, [])), state := Queued, version := 4, operation := true, committedRevision := 2,
                      commitKey := "commit", epoch := 2)
  }

  lemma Examined()
    ensures Apply(DraftBatch(), PreviewOf(2, 2, [Good("item", false)], false, 1, 0)) == Ok(PreviewedBatch())
  {
    var b, findings := DraftBatch(), [Good("item", false)];
    assert AllGood(b.items, findings);
    assert seq(|b.items|, i requires 0 <= i < |b.items| => Found(b.items[i], findings[i])) == PreviewedBatch().items;
  }

  lemma Submitted()
    ensures Apply(PreviewedBatch(), FreezeBy(3, "user", 2, 1, "commit", true, 0, "digest", ["role"], map[], 0)) == Ok(QueuedBatch())
    ensures Save(Claim(QueuedBatch(), 1)) == Ok(ClaimedBatch())
  {
  }

  lemma CreatedAndWithdrawn()
    ensures var created := ClaimedBatch().(version := 6, items := [OneItem(Created, "item", Some(7), false)]);
            && CommitDraft(ClaimedBatch(), Start().stores, 2, 3, 1, 7, "item", 1) == Ok(Written(created, OneContract(1)))
            && Apply(created, ActBy(6, "user", "withdraw", Withdraw, [], 2)) == Ok(WithdrawnBatch())
  {
    var items, item := ClaimedBatch().items, OneItem(Created, "item", Some(7), false);
    assert Find(items, ById(1), 0) == 0 && items[0 := item] == [item];
    assert Linked(ClaimedBatch(), Stores(map[], map[7 := Contract(1, "item", 1)]), 0, 7).stores == OneContract(1);
    assert [] + [Command("withdraw", "user", Withdraw, [])] == [Command("withdraw", "user", Withdraw, [])];
    assert FindCommand([], "withdraw", 0) == 0;
  }

  /** The withdrawn confirmation put aside by handing in the same manifest again. */
  function EditedBatch(): Batch {
    WithdrawnBatch().(state := Draft, version := 8, revision := 3, epoch := 6, confirmation := None, past := [WithdrawnBatch().confirmation.value],
                      operation := false, committedRevision := 0, commitKey := "", token := 0)
  }

  lemma Edited()
    ensures Apply(WithdrawnBatch(), SetManifestOf(7, "source", OneLine(2), 3)) == Ok(EditedBatch())
  {
    var open, lines := Editable(WithdrawnBatch(), 7, 3).value, OneLine(2);
    assert [] + [WithdrawnBatch().confirmation.value] == [WithdrawnBatch().confirmation.value];
    assert Find(open.items, ByKey("line"), 0) == 0;
    assert !Stops(open.items, lines[0]);
    assert FirstStop(open.items, lines, 0) == FirstStop(open.items, lines, 1) == 1;
    assert lines[0].key == open.items[0].key;
    assert !Dropped(lines, open.items[0]);
    assert FindDropped(open.items, lines, 0) == FindDropped(open.items, lines, 1) == 1;
    assert seq(1, i requires 0 <= i < 1 => Renewed(open, lines[i])) == open.items;
  }

  lemma ConfirmedLate()
    ensures AutoConfirm(EditedBatch(), OneContract(1), 1, Policy(true, 0, false), ["role"], "late", {1}, 4)
            == Ok(Written(EditedBatch().(version := 9, items := [OneItem(Created, "item", Some(7), true)],
                                         confirmation := Some(Confirmation(Approved, Auto, 0, 3, "late", ["role"], ["role"], map[], [], 4 + 24 * 3600))),
                          OneContract(2)))
  {
    var items, item := EditedBatch().items, OneItem(Created, "item", Some(7), true);
    assert Find(items, ById(1), 0) == 0 && items[0 := item] == [item];
    assert OneContract(1).contracts[7 := Contract(1, "item", 2)] == OneContract(2).contracts;
  }

  /** The world of the one batch; worker 0 holds it as claimed if `held`. */
  function OneBatch(b: Batch, stores: Stores, held: bool): World {
    World(map["b" := b], stores, if held then map[0 := Holding("b", ClaimedBatch())] else map[])
  }

  lemma Changed(b: Batch, next: Batch, stores: Stores, held: bool, change: ImportBatch.Change)
    requires Usable(b, change) && Apply(b, change) == Ok(next)
    ensures Next(OneBatch(b, stores, held), Change("b", change)) == OneBatch(next, stores, held)
  {
    hide Apply, Usable;
    assert map["b" := b]["b" := next] == map["b" := next];
  }

  lemma RunOn(s: World, m: Move, moves: seq<Move>)
    ensures Run(s, [m] + moves) == Run(Next(s, m), moves)
  {
    assert ([m] + moves)[1..] == moves;
  }

  lemma Begun()
    ensures Next(Start(), NewBatch("b", "source", "user", 1000)) == OneBatch(EmptyBatch("source", "user", 1000), Start().stores, false)
  {
    assert map[]["b" := EmptyBatch("source", "user", 1000)] == map["b" := EmptyBatch("source", "user", 1000)];
  }

  lemma ClaimedByWorker()
    ensures Next(OneBatch(QueuedBatch(), Start().stores, false), ClaimBatch(0, "b", 1)) == OneBatch(ClaimedBatch(), Start().stores, true)
  {
    Submitted();
  }

  lemma ContractCreated(created: Batch)
    requires CommitDraft(ClaimedBatch(), Start().stores, 2, 3, 1, 7, "item", 1) == Ok(Written(created, OneContract(1)))
    ensures Next(OneBatch(ClaimedBatch(), Start().stores, true), CreateContract(0, 0, 7, 1)) == OneBatch(created, OneContract(1), true)
  {
    hide CommitDraft;
  }

  lemma ConfirmedByWorker(next: Batch)
    requires AutoConfirm(EditedBatch(), OneContract(1), 1, Policy(true, 0, false), ["role"], "late", {1}, 4) == Ok(Written(next, OneContract(2)))
    ensures Next(OneBatch(EditedBatch(), OneContract(1), true), ConfirmByItself(0, 0, false, 0, ["role"], "late", {1}, 4))
            == OneBatch(next, OneContract(2), true)
  {
    hide AutoConfirm;
  }

  /** A user submits under AUTO, worker 0 claims the batch and creates the contract, and the user withdraws. */
  lemma RunToWithdrawn() returns (moves: seq<Move>)
    ensures Run(Start(), moves) == OneBatch(WithdrawnBatch(), OneContract(1), true)
  {
    hide Next, OneBatch, Apply, Usable, CommitDraft, ClaimedBatch, WithdrawnBatch, DraftBatch, PreviewedBatch, QueuedBatch, EmptyBatch, Run;
    Begun();
    Manifested();
    Examined();
    Submitted();
    ClaimedByWorker();
    CreatedAndWithdrawn();
    var none, empty := Start().stores, EmptyBatch("source", "user", 1000);
    var created := CommitDraft(ClaimedBatch(), none, 2, 3, 1, 7, "item", 1).value.batch;
    ContractCreated(created);
    var c1, c2 := SetManifestOf(1, "source", OneLine(1), 0), PreviewOf(2, 2, [Good("item", false)], false, 1, 0);
    var c3 := FreezeBy(3, "user", 2, 1, "commit", true, 0, "digest", ["role"], map[], 0);
    var c6 := ActBy(6, "user", "withdraw", Withdraw, [], 2);
    UsableAll(c1, c2, c3, c6);
    Changed(empty, DraftBatch(), none, false, c1);
    Changed(DraftBatch(), PreviewedBatch(), none, false, c2);
    Changed(PreviewedBatch(), QueuedBatch(), none, false, c3);
    Changed(created, WithdrawnBatch(), OneContract(1), true, c6);
    moves := [];
    NoMove(OneBatch(WithdrawnBatch(), OneContract(1), true));
    moves := Before(OneBatch(created, OneContract(1), true), Change("b", c6), moves);
    moves := Before(OneBatch(ClaimedBatch(), none, true), CreateContract(0, 0, 7, 1), moves);
    moves := Before(OneBatch(QueuedBatch(), none, false), ClaimBatch(0, "b", 1), moves);
    moves := Before(OneBatch(PreviewedBatch(), none, false), Change("b", c3), moves);
    moves := Before(OneBatch(DraftBatch(), none, false), Change("b", c2), moves);
    moves := Before(OneBatch(empty, none, false), Change("b", c1), moves);
    moves := Before(Start(), NewBatch("b", "source", "user", 1000), moves);
  }

  lemma NoMove(s: World)
    ensures Run(s, []) == s
  {
  }

  lemma Before(s: World, m: Move, moves: seq<Move>) returns (longer: seq<Move>)
    ensures longer == [m] + moves && Run(s, longer) == Run(Next(s, m), moves)
  {
    longer := [m] + moves;
    RunOn(s, m, moves);
  }

  lemma UsableAll(c1: ImportBatch.Change, c2: ImportBatch.Change, c3: ImportBatch.Change, c6: ImportBatch.Change)
    requires c1.SetManifestOf? && c1.lines == OneLine(1) && !c2.SetManifestOf? && !c3.SetManifestOf? && !c6.SetManifestOf?
    ensures Usable(EmptyBatch("source", "user", 1000), c1)
    ensures forall b :: Usable(b, c2) && Usable(b, c3) && Usable(b, c6)
  {
  }

  predicate Unconfirmed(b: Batch) {
    forall i :: 0 <= i < |b.items| ==> !b.items[i].confirmed
  }

  /** The batch is withdrawn, with nothing confirmed, and worker 0 still holds it from an earlier epoch. */
  predicate HeldButWithdrawn(s: World, id: string) {
    && id in s.batches && IsWithdrawn(s.batches[id]) && s.batches[id].confirmation.value.decision == Auto && Unconfirmed(s.batches[id])
    && WorkerOf(s, 0).Holding? && WorkerOf(s, 0).batch == id && s.batches[id].epoch > WorkerOf(s, 0).snapshot.epoch
  }

  /** The batch is a draft under an approved confirmation, and its items are confirmed. */
  predicate DraftYetConfirmed(s: World, id: string) {
    && id in s.batches && s.batches[id].state == Draft && s.batches[id].items != []
    && s.batches[id].confirmation.Some? && s.batches[id].confirmation.value.state == Approved
    && forall i :: 0 <= i < |s.batches[id].items| ==> s.batches[id].items[i].confirmed
  }

  /**
    The exception is real: after the withdrawal the user hands in the same manifest again, and the
    worker of before, whose epoch is long gone, confirms the item and leaves the draft approved.
   */
  lemma WithdrawnStillConfirms() returns (before: seq<Move>, edit: ImportBatch.Change, m: Move)
    ensures edit.SetManifestOf? && m.ConfirmByItself? && m.w == 0
    ensures HeldButWithdrawn(Run(Start(), before), "b")
    ensures DraftYetConfirmed(Run(Run(Start(), before), [Change("b", edit), m]), "b")
  {
    before := RunToWithdrawn();
    edit, m := SetManifestOf(7, "source", OneLine(2), 3), ConfirmByItself(0, 0, false, 0, ["role"], "late", {1}, 4);
    Edited();
    ConfirmedLate();
    var next := AutoConfirm(EditedBatch(), OneContract(1), 1, Policy(true, 0, false), ["role"], "late", {1}, 4).value.batch;
    ConfirmedByWorker(next);
    StillUsable(edit);
    Changed(WithdrawnBatch(), EditedBatch(), OneContract(1), true, edit);
    HeldThen();
    ConfirmedThen(next);
    hide Next, Run, AutoConfirm, Apply, Usable, HeldButWithdrawn, DraftYetConfirmed, OneBatch, WithdrawnBatch, EditedBatch, OneContract;
    NoMove(OneBatch(next, OneContract(2), true));
    var after := Before(OneBatch(EditedBatch(), OneContract(1), true), m, []);
    after := Before(OneBatch(WithdrawnBatch(), OneContract(1), true), Change("b", edit), after);
    assert after == [Change("b", edit), m];
  }

  lemma {:induction false} HeldThen()
    ensures HeldButWithdrawn(OneBatch(WithdrawnBatch(), OneContract(1), true), "b")
  {
  }

  lemma {:induction false} ConfirmedThen(next: Batch)
    requires next == EditedBatch().(version := 9, items := [OneItem(Created, "item", Some(7), true)],
                                    confirmation := Some(Confirmation(Approved, Auto, 0, 3, "late", ["role"], ["role"], map[], [], 4 + 24 * 3600)))
    ensures DraftYetConfirmed(OneBatch(next, OneContract(2), true), "b")
  {
  }

  lemma StillUsable(c: ImportBatch.Change)
    requires c.SetManifestOf? && c.lines == OneLine(2)
    ensures Usable(WithdrawnBatch(), c)
  {
  }
}

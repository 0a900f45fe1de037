/**
  An import gets done: from every reachable state a worker on its own takes a committed batch whose
  items have nothing against them to its end, with a contract for every item.
 */
module ImportProgress {
  import opened Wrappers
  import opened ImportBatch
  import opened ImportLedger
  import opened ImportRuns
  import opened ImportEffects
  import opened ImportDispatch

  /** The item is done, or is open and its source record is not registered under other contents. */
  predicate Doable(b: Batch, stores: Stores, item: Item) {
    if item.state == Complete then item.contract.Some?
    else !Terminal(item) && (item.contract.Some? || !((b.source, item.record) in stores.identities)
                             || stores.identities[(b.source, item.record)].digest == item.digest)
  }

  predicate AllDoable(b: Batch, stores: Stores) {
    forall i :: 0 <= i < |b.items| ==> Doable(b, stores, b.items[i])
  }

  lemma {:induction false} NewId(used: set<nat>) returns (id: nat)
    ensures forall u :: u in used ==> u < id
    decreases used
  {
    if used == {} {
      id := 0;
    } else {
      var u :| u in used;
      id := NewId(used - {u});
      if id <= u {
        id := u + 1;
      }
      assert forall v :: v in used ==> v == u || v in used - {u};
    }
  }

  // ----- One item -----

  /** What the creation of a contract makes of the batch and the stores; an item that has one keeps it. */
  lemma {:induction false} Creates(b: Batch, stores: Stores, i: nat, now: int) returns (offered: nat, w: Written)
    requires ItemsApart(b.items) && i < |b.items| && Executing(b, b.epoch) && b.leaseUntil > now
    requires Doable(b, stores, b.items[i]) && b.items[i].state != Complete
    ensures CommitDraft(b, stores, b.revision, b.epoch, b.items[i].id, offered, b.items[i].digest, now) == Ok(w)
    ensures |w.batch.items| == |b.items| && w.batch.items[i].contract.Some?
    ensures w.batch == b.(version := w.batch.version, items := b.items[i := w.batch.items[i]])
    ensures SameButState(b.items[i], w.batch.items[i])
    ensures forall k :: k in w.stores.identities && k != (b.source, b.items[i].record) ==>
              k in stores.identities && w.stores.identities[k].digest == stores.identities[k].digest
  {
    var used := stores.contracts.Keys;
    offered := NewId(used);
    IdFound(b.items, i);
    hide ItemsApart;
    w := CommitDraft(b, stores, b.revision, b.epoch, b.items[i].id, offered, b.items[i].digest, now).value;
  }

  predicate SameButState(a: Item, b: Item) {
    b == a.(state := b.state, issues := b.issues, contract := b.contract) && (a.contract.Some? ==> b.contract == a.contract)
  }

  /** The batch as a dispatch of its i-th item leaves it, and the worker idle again. */
  predicate Worked(s: World, t: World, w: nat, id: string, i: nat) {
    && id in s.batches && id in t.batches && i < |s.batches[id].items| == |t.batches[id].items|
    && WorkerOf(t, w) == Idle
    && t.batches[id].source == s.batches[id].source && t.batches[id].confirmation == s.batches[id].confirmation
    && t.batches[id].leaseUntil == 0
    && (forall k :: 0 <= k < |s.batches[id].items| && k != i ==> t.batches[id].items[k] == s.batches[id].items[k])
    && SameButState(s.batches[id].items[i], t.batches[id].items[i])
    && t.batches[id].items[i].state == Complete && t.batches[id].items[i].contract.Some?
    && (forall k :: k in t.stores.identities && k != (s.batches[id].source, s.batches[id].items[i].record) ==>
          k in s.stores.identities && t.stores.identities[k].digest == s.stores.identities[k].digest)
    && t.batches[id].state == Settled(t.batches[id])
  }

  /** Where a batch goes when a dispatch ends well. */
  function Settled(b: Batch): BatchState {
    if exists k :: 0 <= k < |b.items| && b.items[k].state != Complete then Queued
    else if b.confirmation == None then Completed
    else if b.confirmation.value.state == Approved then TargetsPending else ConfirmationPending
  }

  /** A worker claims the batch, creates the contract of its first open item, completes it and gives the batch back. */
  lemma {:induction false} WorksOne(s: World, w: nat, id: string, i: nat, now: int) returns (moves: seq<Move>)
    requires Inv(s) && id in s.batches && WorkerOf(s, w) == Idle && Claimable(s.batches[id], now)
    requires i == NextOpen(s.batches[id].items, 0) && i < |s.batches[id].items| && Doable(s.batches[id], s.stores, s.batches[id].items[i])
    ensures Worked(s, Run(s, moves), w, id, i)
  {
    OneBatchOk(s, id);
    hide Inv, Next, Run, Claim, Terminal, NextOpen, CommitDraft, Claimable, Worked, Settled;
    var c := ClaimedInWorld(s, w, id, now);
    var s1 := Next(s, ClaimBatch(w, id, now));
    SameDoable(s.batches[id], c, s.stores, i);
    var offered, written := Creates(c, s.stores, i, now);
    var s2 := Next(s1, CreateContract(w, i, offered, now));
    CreatedInWorld(s1, w, id, i, offered, now, c, written);
    var s3 := Next(s2, CompleteItem(w, i));
    CompletedInWorld(s2, w, id, i, c);
    var s4 := Next(s3, EndDispatch(w, i, Done));
    EndedInWorld(s3, w, id, i, c);
    moves := [ClaimBatch(w, id, now), CreateContract(w, i, offered, now), CompleteItem(w, i), EndDispatch(w, i, Done)];
    RunFour(s, moves);
    AllInAll(s, s4, w, id, i, written);
  }

  lemma {:induction false} SameDoable(b: Batch, c: Batch, stores: Stores, i: nat)
    requires i < |b.items| && c.items == b.items && c.source == b.source
    ensures Doable(c, stores, c.items[i]) == Doable(b, stores, b.items[i])
  {
  }

  lemma {:induction false} ClaimedInWorld(s: World, w: nat, id: string, now: int) returns (c: Batch)
    requires id in s.batches && WorkerOf(s, w) == Idle && Claimable(s.batches[id], now)
    ensures var b, t := s.batches[id], Next(s, ClaimBatch(w, id, now));
            && c == b.(version := b.version + 1, state := Running, epoch := b.epoch + 1, leaseUntil := now + 120)
            && id in t.batches && t.batches[id] == c && t.stores == s.stores && WorkerOf(t, w) == Holding(id, c)
  {
    ClaimExactly(s.batches[id], now);
    c := Claimed(s.batches[id], now);
    hide Claim;
  }

  lemma {:induction false} AllInAll(s: World, t: World, w: nat, id: string, i: nat, written: Written)
    requires id in s.batches && id in t.batches && i < |s.batches[id].items| == |written.batch.items| && WorkerOf(t, w) == Idle
    requires written.batch.items == s.batches[id].items[i := written.batch.items[i]] && written.batch.items[i].contract.Some?
    requires SameButState(s.batches[id].items[i], written.batch.items[i])
    requires t.batches[id].items == written.batch.items[i := written.batch.items[i].(state := Complete, issues := [])]
    requires t.batches[id].source == s.batches[id].source && t.batches[id].confirmation == s.batches[id].confirmation && t.batches[id].leaseUntil == 0
    requires t.batches[id].state == Settled(t.batches[id]) && t.stores == written.stores
    requires forall k :: k in written.stores.identities && k != (s.batches[id].source, s.batches[id].items[i].record) ==>
               k in s.stores.identities && written.stores.identities[k].digest == s.stores.identities[k].digest
    ensures Worked(s, t, w, id, i)
  {
    hide Settled;
  }

  lemma {:induction false} CreatedInWorld(s: World, w: nat, id: string, i: nat, offered: nat, now: int, c: Batch, written: Written)
    requires id in s.batches && s.batches[id] == c && WorkerOf(s, w) == Holding(id, c) && i < |c.items|
    requires CommitDraft(c, s.stores, c.revision, c.epoch, c.items[i].id, offered, c.items[i].digest, now) == Ok(written)
    ensures var t := Next(s, CreateContract(w, i, offered, now));
            id in t.batches && t.batches[id] == written.batch && t.stores == written.stores && WorkerOf(t, w) == Holding(id, c)
  {
    hide CommitDraft;
  }

  lemma {:induction false} CompletedInWorld(s: World, w: nat, id: string, i: nat, c: Batch)
    requires id in s.batches && WorkerOf(s, w) == Holding(id, c) && i < |c.items| == |s.batches[id].items| && ItemsApart(c.items)
    requires Executing(s.batches[id], c.epoch) && forall k :: 0 <= k < |c.items| ==> s.batches[id].items[k].id == c.items[k].id
    ensures var b, t := s.batches[id], Next(s, CompleteItem(w, i));
            && id in t.batches && t.stores == s.stores && WorkerOf(t, w) == Holding(id, c)
            && t.batches[id] == b.(version := b.version + 1, items := b.items[i := b.items[i].(state := Complete, issues := [])])
  {
    var b := s.batches[id];
    forall j, k | 0 <= j < k < |b.items| ensures b.items[j].id != b.items[k].id {
    }
    hide ItemsApart;
    var at := Find(b.items, ById(c.items[i].id), 0);
    assert at <= i && b.items[at].id == b.items[i].id;
  }

  lemma {:induction false} EndedInWorld(s: World, w: nat, id: string, i: nat, c: Batch)
    requires id in s.batches && WorkerOf(s, w) == Holding(id, c) && Executing(s.batches[id], c.epoch) && i < |s.batches[id].items|
    ensures var b, t := s.batches[id], Next(s, EndDispatch(w, i, Done));
            && id in t.batches && t.stores == s.stores && WorkerOf(t, w) == Idle
            && t.batches[id] == b.(version := b.version + 1, leaseUntil := 0, state := t.batches[id].state)
            && t.batches[id].state == Settled(t.batches[id])
  {
    FinishExactly(s.batches[id], i, Done);
    hide Finish;
  }

  lemma {:induction false} RunFour(s: World, moves: seq<Move>)
    requires |moves| == 4
    ensures Run(s, moves) == Next(Next(Next(Next(s, moves[0]), moves[1]), moves[2]), moves[3])
  {
    hide Next;
    assert moves == [moves[0]] + [moves[1]] + [moves[2]] + [moves[3]];
    RunFrom(s, [moves[0]] + [moves[1]] + [moves[2]], [moves[3]]);
    RunFrom(s, [moves[0]] + [moves[1]], [moves[2]]);
    RunFrom(s, [moves[0]], [moves[1]]);
    RunOne(s, moves[0]);
    RunOne(Next(s, moves[0]), moves[1]);
    RunOne(Next(Next(s, moves[0]), moves[1]), moves[2]);
    RunOne(Next(Next(Next(s, moves[0]), moves[1]), moves[2]), moves[3]);
  }

  // ----- The whole batch -----

  lemma {:induction false} StillDoable(s: World, t: World, w: nat, id: string, i: nat)
    requires Worked(s, t, w, id, i) && ItemsApart(s.batches[id].items) && AllDoable(s.batches[id], s.stores)
    ensures AllDoable(t.batches[id], t.stores)
  {
    hide Settled, Terminal;
    var a, b := s.batches[id], t.batches[id];
    forall k | 0 <= k < |b.items| ensures Doable(b, t.stores, b.items[k]) {
      if k != i {
        assert Doable(a, s.stores, a.items[k]);
        assert (a.source, a.items[k].record) != (a.source, a.items[i].record);
      }
    }
  }

  /** How many items are not complete. */
  function Undone(items: seq<Item>): nat {
    if items == [] then 0 else Undone(items[..|items| - 1]) + if items[|items| - 1].state == Complete then 0 else 1
  }

  lemma {:induction false} FewerUndone(a: seq<Item>, b: seq<Item>, i: nat)
    requires i < |a| == |b| && a[i].state != Complete && b[i].state == Complete && forall k :: 0 <= k < |a| && k != i ==> b[k] == a[k]
    ensures Undone(b) < Undone(a)
    decreases |a|
  {
    if i == |a| - 1 {
      assert a[..|a| - 1] == b[..|b| - 1];
    } else {
      FewerUndone(a[..|a| - 1], b[..|b| - 1], i);
    }
  }

  lemma {:induction false} OpenIsUndone(b: Batch, stores: Stores)
    requires AllDoable(b, stores)
    ensures var i := NextOpen(b.items, 0);
            if i < |b.items| then b.items[i].state != Complete else forall k :: 0 <= k < |b.items| ==> b.items[k].state == Complete
  {
    forall k | 0 <= k < |b.items| ensures b.items[k].state == Complete || !Terminal(b.items[k]) {
      assert Doable(b, stores, b.items[k]);
    }
    hide Terminal;
  }

  /** The batch is at its end, with a contract for every item: nothing is left to execute, but perhaps to confirm or deliver. */
  predicate AtItsEnd(b: Batch) {
    && (forall i :: 0 <= i < |b.items| ==> b.items[i].state == Complete && b.items[i].contract.Some?)
    && b.state == (if b.confirmation == None then Completed else if b.confirmation.value.state == Approved then TargetsPending else ConfirmationPending)
  }

  /** From every state in order, one idle worker brings a claimable batch of doable items to its end. */
  lemma {:induction false} BatchCompletes(s: World, w: nat, id: string, now: int) returns (moves: seq<Move>)
    requires Inv(s) && id in s.batches && WorkerOf(s, w) == Idle && Claimable(s.batches[id], now) && now > 0
    requires AllDoable(s.batches[id], s.stores)
    ensures var t := Run(s, moves);
            && id in t.batches && AtItsEnd(t.batches[id]) && |t.batches[id].items| == |s.batches[id].items|
            && t.batches[id].confirmation == s.batches[id].confirmation
            && forall i :: 0 <= i < |s.batches[id].items| ==> SameButState(s.batches[id].items[i], t.batches[id].items[i])
    decreases Undone(s.batches[id].items)
  {
    var b := s.batches[id];
    OneBatchOk(s, id);
    OpenIsUndone(b, s.stores);
    var i := NextOpen(b.items, 0);
    hide Inv, Run, Next, NextOpen, Terminal, ItemsApart, CommitDraft;
    if i == |b.items| {
      moves := Settles(s, w, id, now);
    } else {
      assert Doable(b, s.stores, b.items[i]);
      var first := WorksOne(s, w, id, i, now);
      var t := Run(s, first);
      if t.batches[id].state == Queued {
        RunKeeps(s, first);
        StillDoable(s, t, w, id, i);
        FewerUndone(b.items, t.batches[id].items, i);
        var rest := BatchCompletes(t, w, id, now);
        RunFrom(s, first, rest);
        moves := first + rest;
      } else {
        CompleteHaveContracts(s, t, w, id, i);
        moves := first;
      }
    }
  }

  lemma {:induction false} CompleteHaveContracts(s: World, t: World, w: nat, id: string, i: nat)
    requires Worked(s, t, w, id, i) && AllDoable(s.batches[id], s.stores) && t.batches[id].state != Queued
    ensures AtItsEnd(t.batches[id])
  {
    hide Terminal;
    forall k | 0 <= k < |t.batches[id].items| ensures t.batches[id].items[k].contract.Some? {
      if k != i {
        assert Doable(s.batches[id], s.stores, s.batches[id].items[k]);
        assert t.batches[id].items[k].state == Complete;
      }
    }
  }

  /** A dispatch that finds nothing open settles the batch. */
  lemma {:induction false} Settles(s: World, w: nat, id: string, now: int) returns (moves: seq<Move>)
    requires id in s.batches && WorkerOf(s, w) == Idle && Claimable(s.batches[id], now) && AllDoable(s.batches[id], s.stores)
    requires forall k :: 0 <= k < |s.batches[id].items| ==> s.batches[id].items[k].state == Complete
    ensures var t := Run(s, moves);
            && id in t.batches && AtItsEnd(t.batches[id]) && t.batches[id].items == s.batches[id].items
            && t.batches[id].confirmation == s.batches[id].confirmation
  {
    var b := s.batches[id];
    forall k | 0 <= k < |b.items| ensures b.items[k].contract.Some? {
      assert Doable(b, s.stores, b.items[k]);
    }
    var c := ClaimedInWorld(s, w, id, now);
    var s1 := Next(s, ClaimBatch(w, id, now));
    FinishExactly(c, |b.items|, ImportBatch.Done);
    moves := [ClaimBatch(w, id, now)] + [EndDispatch(w, |b.items|, ImportBatch.Done)];
    RunFrom(s, [ClaimBatch(w, id, now)], [EndDispatch(w, |b.items|, ImportBatch.Done)]);
    RunOne(s, ClaimBatch(w, id, now));
    RunOne(s1, EndDispatch(w, |b.items|, ImportBatch.Done));
    hide Finish, Run, Claimable, Doable;
  }

  // ----- From the manifest on -----

  /** A manifest of normal records, each with its file staged, under new item ids. */
  predicate Plain(lines: seq<Line>) {
    && ValidManifest(lines) && (forall i :: 0 <= i < |lines| ==> lines[i].staged && lines[i].mode == NormalMode)
    && forall i, j :: 0 <= i < j < |lines| ==> lines[i].newId != lines[j].newId
  }

  function NewItem(line: Line): Item {
    Item(line.newId, line.key, line.record, line.content, line.mode, 2, "", PendingItem, [], None, false)
  }

  /** The batch once its manifest is in, once it is previewed, and once it is committed. */
  function Drafted(source: string, actor: string, lines: seq<Line>): Batch {
    Batch(source, actor, Draft, 2, 2, 1, 0, seq(|lines|, i requires 0 <= i < |lines| => NewItem(lines[i])), None, [], false, 0, "", 0, 0, 1000)
  }

  function Examined(source: string, actor: string, lines: seq<Line>): Batch {
    Drafted(source, actor, lines).(
      state := ImportBatch.Previewed, version := 3, token := 1, tokenExpires := 1801,
      items := seq(|lines|, i requires 0 <= i < |lines| => NewItem(lines[i]).(state := Ready, digest := lines[i].content)))
  }

  function Committed(source: string, actor: string, lines: seq<Line>): Batch {
    Examined(source, actor, lines).(state := Queued, version := 4, operation := true, committedRevision := 2, commitKey := "commit", epoch := 2)
  }

  lemma {:induction false} Drafts(source: string, actor: string, lines: seq<Line>)
    requires Plain(lines)
    ensures Apply(EmptyBatch(source, actor, 1000), SetManifestOf(1, source, lines, 1)) == Ok(Drafted(source, actor, lines))
  {
    var b := EmptyBatch(source, actor, 1000);
    assert FirstStop(b.items, lines, 0) == |lines|;
    assert FindDropped(b.items, lines, 0) == 0;
    hide FirstStop, FindDropped;
    assert seq(|lines|, i requires 0 <= i < |lines| => Renewed(b, lines[i])) == Drafted(source, actor, lines).items;
  }

  function Findings(lines: seq<Line>): seq<Finding> {
    seq(|lines|, i requires 0 <= i < |lines| => Good(lines[i].content, false))
  }

  lemma {:induction false} Examines(source: string, actor: string, lines: seq<Line>)
    requires Plain(lines)
    ensures Apply(Drafted(source, actor, lines), PreviewOf(2, 2, Findings(lines), false, 1, 1)) == Ok(Examined(source, actor, lines))
    ensures Apply(Examined(source, actor, lines), CommitBy(actor, 2, 1, "commit", 1)) == Ok(Committed(source, actor, lines))
  {
    var b, findings := Drafted(source, actor, lines), Findings(lines);
    assert AllGood(b.items, findings);
    assert seq(|b.items|, i requires 0 <= i < |b.items| => Found(b.items[i], findings[i])) == Examined(source, actor, lines).items;
  }

  lemma {:induction false} Changes(s: World, id: string, change: ImportBatch.Change, next: Batch)
    requires id in s.batches && Usable(s.batches[id], change) && Apply(s.batches[id], change) == Ok(next)
    ensures Next(s, Change(id, change)) == s.(batches := s.batches[id := next])
  {
    hide Apply, Usable;
  }

  lemma {:induction false} NewIdsUsable(source: string, actor: string, lines: seq<Line>)
    requires Plain(lines)
    ensures Usable(EmptyBatch(source, actor, 1000), SetManifestOf(1, source, lines, 1))
  {
  }

  /** A new batch, its manifest, its preview and its commit, all in a world without imports. */
  lemma {:induction false} Queues(source: string, actor: string, lines: seq<Line>) returns (moves: seq<Move>)
    requires Plain(lines)
    ensures Run(Start(), moves) == World(map["b" := Committed(source, actor, lines)], Start().stores, map[])
  {
    var c1, c2 := SetManifestOf(1, source, lines, 1), PreviewOf(2, 2, Findings(lines), false, 1, 1);
    var c3 := CommitBy(actor, 2, 1, "commit", 1);
    var m0 := NewBatch("b", source, actor, 1000);
    Drafts(source, actor, lines);
    Examines(source, actor, lines);
    NewIdsUsable(source, actor, lines);
    var s1 := Next(Start(), m0);
    assert s1 == World(map["b" := EmptyBatch(source, actor, 1000)], Start().stores, map[]);
    hide Plain, Drafted, Examined, Committed, Apply;
    Changes(s1, "b", c1, Drafted(source, actor, lines));
    var s2 := Next(s1, Change("b", c1));
    Changes(s2, "b", c2, Examined(source, actor, lines));
    var s3 := Next(s2, Change("b", c2));
    Changes(s3, "b", c3, Committed(source, actor, lines));
    moves := [m0, Change("b", c1), Change("b", c2), Change("b", c3)];
    hide Next;
    RunFour(Start(), moves);
  }

  /** Every manifest of new normal records can be imported to the end, with a contract for every line under its record and digest. */
  lemma {:induction false} AnyManifestImports(source: string, actor: string, lines: seq<Line>) returns (moves: seq<Move>)
    requires Plain(lines)
    ensures var t := Run(Start(), moves);
            && "b" in t.batches && t.batches["b"].state == Completed && |t.batches["b"].items| == |lines|
            && forall i :: 0 <= i < |lines| ==>
                 t.batches["b"].items[i].contract.Some? && t.batches["b"].items[i].record == lines[i].record
                 && t.batches["b"].items[i].digest == lines[i].content
  {
    var first := Queues(source, actor, lines);
    var s := Run(Start(), first);
    StartInv();
    RunKeeps(Start(), first);
    hide Run, Inv, Plain;
    var rest := BatchCompletes(s, 0, "b", 1);
    RunFrom(Start(), first, rest);
    moves := first + rest;
  }
}

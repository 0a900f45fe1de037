/**
  What holds over every run of historical imports: any batches, any users editing, committing,
  pausing, confirming and withdrawing, and any workers, crashing and stale ones included.
 */
module ImportRuns {
  import opened Wrappers
  import opened ImportBatch
  import opened ImportLedger

  /** A worker holds the batch as it was when it claimed it. */
  datatype Worker = Idle | Holding(batch: string, snapshot: Batch)

  datatype World = World(batches: map<string, Batch>, stores: Stores, workers: map<nat, Worker>)

  datatype Move =
    | NewBatch(id: string, source: string, actor: string, expiresAt: int)
    | Change(id: string, change: ImportBatch.Change)
    | ClaimBatch(w: nat, id: string, now: int)
    | CreateContract(w: nat, index: nat, offered: nat, now: int)
    | ConfirmByItself(w: nat, index: nat, live: bool, liveVersion: nat, roles: seq<string>, digest: string, ready: set<nat>, now: int)
    | CompleteItem(w: nat, index: nat)
    | EndDispatch(w: nat, index: nat, ending: Ending)
    | Crash(w: nat)
    | AdvanceRound(id: string, revision: nat, digest: string, ready: set<nat>, now: int)

  function WorkerOf(s: World, w: nat): Worker {
    if w in s.workers then s.workers[w] else Idle
  }

  function Replace(s: World, id: string, r: Outcome): World {
    match r
    case Ok(b) => s.(batches := s.batches[id := b])
    case Err(_) => s
  }

  function ReplaceBoth(s: World, id: string, r: LedgerOutcome): World {
    match r
    case Ok(w) => s.(batches := s.batches[id := w.batch], stores := w.stores)
    case Err(_) => s
  }

  function EmptyBatch(source: string, actor: string, expiresAt: int): Batch {
    Batch(source, actor, Draft, 1, 1, 0, 0, [], None, [], false, 0, "", 0, 0, expiresAt)
  }

  /** New item ids are unused; ids are taken as unique. */
  predicate Usable(b: Batch, change: ImportBatch.Change) {
    change.SetManifestOf? ==> FreshIds(b.items, change.lines)
  }

  function Next(s: World, m: Move): World {
    match m
    case NewBatch(id, source, actor, expiresAt) =>
      if id in s.batches then s else s.(batches := s.batches[id := EmptyBatch(source, actor, expiresAt)])
    case Change(id, change) =>
      if id in s.batches && Usable(s.batches[id], change) then Replace(s, id, Apply(s.batches[id], change)) else s
    case ClaimBatch(w, id, now) =>
      if id in s.batches && WorkerOf(s, w).Idle? then
        match Save(Claim(s.batches[id], now))
        case Ok(b) => s.(batches := s.batches[id := b], workers := s.workers[w := Holding(id, b)])
        case Err(_) => s
      else s
    case CreateContract(w, index, offered, now) =>
      var worker := WorkerOf(s, w);
      if worker.Holding? && worker.batch in s.batches && index < |worker.snapshot.items| then
        var item := worker.snapshot.items[index];
        ReplaceBoth(s, worker.batch, CommitDraft(s.batches[worker.batch], s.stores, worker.snapshot.revision, worker.snapshot.epoch,
                                                 item.id, offered, item.digest, now))
      else s
    case ConfirmByItself(w, index, live, liveVersion, roles, digest, ready, now) =>
      var worker := WorkerOf(s, w);
      if worker.Holding? && worker.batch in s.batches && index < |worker.snapshot.items|
         && PolicyOf(worker.snapshot.confirmation, live, liveVersion).auto then
        ReplaceBoth(s, worker.batch, AutoConfirm(s.batches[worker.batch], s.stores, worker.snapshot.items[index].id,
                                                 PolicyOf(worker.snapshot.confirmation, live, liveVersion), roles, digest, ready, now))
      else s
    case CompleteItem(w, index) =>
      var worker := WorkerOf(s, w);
      if worker.Holding? && worker.batch in s.batches && index < |worker.snapshot.items| then
        Replace(s, worker.batch, Save(MarkComplete(s.batches[worker.batch], worker.snapshot.epoch, worker.snapshot.items[index].id)))
      else s
    case EndDispatch(w, index, ending) =>
      var worker := WorkerOf(s, w);
      if worker.Holding? && worker.batch in s.batches then
        Replace(s.(workers := s.workers[w := Idle]), worker.batch, Save(Finish(s.batches[worker.batch], worker.snapshot.epoch, index, ending)))
      else s
    case Crash(w) => s.(workers := s.workers[w := Idle])
    case AdvanceRound(id, revision, digest, ready, now) =>
      if id in s.batches then ReplaceBoth(s, id, AdvanceConfirmation(s.batches[id], s.stores, revision, digest, ready, now)) else s
  }

  function Run(s: World, moves: seq<Move>): World
    decreases |moves|
  {
    if moves == [] then s else Run(Next(s, moves[0]), moves[1..])
  }

  // ----- The invariant -----

  /** A worker of the current epoch sees the contents the batch still has while it executes. */
  predicate WorkerOk(s: World, worker: Worker) {
    worker.Holding? ==>
      && worker.batch in s.batches && worker.snapshot.epoch <= s.batches[worker.batch].epoch
      && (Executing(s.batches[worker.batch], worker.snapshot.epoch) ==> SameContents(worker.snapshot, s.batches[worker.batch]))
  }

  predicate BatchesOk(batches: map<string, Batch>, stores: Stores) {
    forall id :: id in batches ==> BatchOk(batches[id]) && ItemsIdentified(batches[id], stores)
  }

  predicate Inv(s: World) {
    && IdentitiesOk(s.stores) && BatchesOk(s.batches, s.stores)
    && forall w :: w in s.workers ==> WorkerOk(s, s.workers[w])
  }

  /** What a step may make of a batch. */
  predicate BatchStep(a: Batch, b: Batch) {
    && (a == b || Fenced(a, b)) && PolicyStays(a.confirmation, b.confirmation)
    && (forall i :: 0 <= i < |a.items| && a.items[i].contract.Some? ==>
          exists j :: 0 <= j < |b.items| && SameRecord(a.items[i], b.items[j]))
  }

  /** What a step may make of the world. */
  predicate Progress(s: World, t: World) {
    && StoresGrown(s.stores, t.stores)
    && forall id :: id in s.batches ==> id in t.batches && BatchStep(s.batches[id], t.batches[id])
  }

  lemma {:induction false} StaysOk(s: World, t: World, worker: Worker)
    requires WorkerOk(s, worker) && Progress(s, t)
    ensures WorkerOk(t, worker)
  {
    if worker.Holding? {
      assert BatchStep(s.batches[worker.batch], t.batches[worker.batch]);
    }
  }

  lemma {:induction false} StaysIdentified(b: Batch, a: Stores, c: Stores)
    requires ItemsIdentified(b, a) && StoresGrown(a, c)
    ensures ItemsIdentified(b, c)
  {
    forall i | 0 <= i < |b.items| ensures Identified(b.source, c, b.items[i]) {
      StillIdentified(b.source, a, c, b.items[i]);
    }
  }

  lemma {:induction false} StoresSame(stores: Stores)
    ensures StoresGrown(stores, stores)
  {
  }

  lemma {:induction false} BatchSame(b: Batch)
    ensures BatchStep(b, b)
  {
    forall i | 0 <= i < |b.items| && b.items[i].contract.Some?
      ensures exists j :: 0 <= j < |b.items| && SameRecord(b.items[i], b.items[j])
    {
      Listed(b.items[i], b.items, i);
    }
  }

  /** One batch and the stores replaced, everything else untouched. */
  lemma {:induction false} ReplacedOk(s: World, t: World, id: string)
    requires Inv(s) && id in s.batches && id in t.batches && t.batches == s.batches[id := t.batches[id]] && t.workers == s.workers
    requires IdentitiesOk(t.stores) && StoresGrown(s.stores, t.stores)
    requires BatchOk(t.batches[id]) && ItemsIdentified(t.batches[id], t.stores) && BatchStep(s.batches[id], t.batches[id])
    ensures Inv(t) && Progress(s, t)
  {
    hide BatchOk, BatchStep, IdentitiesOk, StoresGrown, ItemsIdentified, WorkerOk;
    forall k | k in s.batches ensures k in t.batches && BatchStep(s.batches[k], t.batches[k]) {
      BatchSame(s.batches[k]);
    }
    forall k | k in t.batches ensures BatchOk(t.batches[k]) && ItemsIdentified(t.batches[k], t.stores) {
      if k != id {
        StaysIdentified(s.batches[k], s.stores, t.stores);
      }
    }
    forall w | w in t.workers ensures WorkerOk(t, t.workers[w]) {
      StaysOk(s, t, s.workers[w]);
    }
  }

  lemma {:induction false} OnwardStep(a: Batch, b: Batch)
    requires Onward(a, b)
    ensures BatchStep(a, b)
  {
  }

  lemma {:induction false} SoundStep(a: Batch, stores: Stores, w: Written)
    requires Sound(a, stores, w)
    ensures BatchStep(a, w.batch)
  {
    forall i | 0 <= i < |a.items| && a.items[i].contract.Some?
      ensures exists j :: 0 <= j < |w.batch.items| && SameRecord(a.items[i], w.batch.items[j])
    {
      assert SameRecord(a.items[i], w.batch.items[i]);
    }
  }

  lemma SameRecordIdentified(source: string, stores: Stores, a: Item, b: Item)
    requires Identified(source, stores, a) && SameRecord(a, b)
    ensures Identified(source, stores, b)
  {
  }

  lemma {:induction false} ContractsIdentified(a: Batch, b: Batch, stores: Stores)
    requires ItemsIdentified(a, stores) && ContractsStay(a.items, b.items) && b.source == a.source
    ensures ItemsIdentified(b, stores)
  {
    hide SameRecord;
    forall j | 0 <= j < |b.items| ensures Identified(b.source, stores, b.items[j]) {
      if b.items[j].contract.Some? {
        ContractKept(a.items, b.items, j);
        var i :| 0 <= i < |a.items| && SameRecord(a.items[i], b.items[j]);
        SameRecordIdentified(a.source, stores, a.items[i], b.items[j]);
      }
    }
  }

  lemma ContractKept(a: seq<Item>, b: seq<Item>, j: nat)
    requires ContractsStay(a, b) && j < |b| && b[j].contract.Some?
    ensures exists i :: 0 <= i < |a| && SameRecord(a[i], b[j])
  {
  }

  lemma {:induction false} OnwardKeeps(s: World, id: string, b: Batch)
    requires Inv(s) && id in s.batches && BatchOk(b) && Onward(s.batches[id], b)
    ensures Inv(s.(batches := s.batches[id := b])) && Progress(s, s.(batches := s.batches[id := b]))
  {
    hide BatchOk, BatchStep, IdentitiesOk, StoresGrown, ItemsIdentified, WorkerOk, ContractsStay, Fenced;
    StoresSame(s.stores);
    OnwardStep(s.batches[id], b);
    OnwardIdentified(s.batches[id], b, s.stores);
    ReplacedOk(s, s.(batches := s.batches[id := b]), id);
  }

  lemma {:induction false} OnwardIdentified(a: Batch, b: Batch, stores: Stores)
    requires ItemsIdentified(a, stores) && Onward(a, b)
    ensures ItemsIdentified(b, stores)
  {
    ContractsIdentified(a, b, stores);
  }

  lemma {:induction false} SoundKeeps(s: World, id: string, w: Written)
    requires Inv(s) && id in s.batches && Sound(s.batches[id], s.stores, w)
    ensures Inv(ReplaceBoth(s, id, Ok(w))) && Progress(s, ReplaceBoth(s, id, Ok(w)))
  {
    SoundStep(s.batches[id], s.stores, w);
    hide BatchOk, BatchStep, IdentitiesOk, StoresGrown, ItemsIdentified, WorkerOk, ItemsGrown, Fenced, PolicyStays, Inv;
    ReplacedOk(s, ReplaceBoth(s, id, Ok(w)), id);
  }

  // ----- The executing moves on a batch -----

  lemma {:induction false} ClaimKeeps(b: Batch, now: int)
    requires BatchOk(b) && Save(Claim(b, now)).Ok?
    ensures BatchOk(Save(Claim(b, now)).value) && Onward(b, Save(Claim(b, now)).value)
    ensures Save(Claim(b, now)).value.epoch == b.epoch + 1
  {
    InPlaceKeeps(b.items, b.items);
  }

  /** Only states and issues of items change. */
  lemma {:induction false} StatesOnly(b: Batch, next: Batch)
    requires BatchOk(b) && |next.items| == |b.items| && next == b.(items := next.items, state := next.state, leaseUntil := next.leaseUntil)
    requires forall i :: 0 <= i < |b.items| ==> next.items[i] == b.items[i].(state := next.items[i].state, issues := next.items[i].issues)
    requires b.state == Running
    ensures BatchOk(Saved(next)) && Onward(b, Saved(next))
  {
    InPlaceKeeps(b.items, next.items);
  }

  lemma {:induction false} MarkKeeps(b: Batch, epoch: nat, id: nat)
    requires BatchOk(b) && Save(MarkComplete(b, epoch, id)).Ok?
    ensures BatchOk(Save(MarkComplete(b, epoch, id)).value) && Onward(b, Save(MarkComplete(b, epoch, id)).value)
  {
    hide BatchOk, Onward;
    StatesOnly(b, MarkComplete(b, epoch, id).value);
  }

  lemma {:induction false} EndKeeps(b: Batch, epoch: nat, index: nat, ending: Ending)
    requires BatchOk(b) && Save(Finish(b, epoch, index, ending)).Ok?
    ensures BatchOk(Save(Finish(b, epoch, index, ending)).value) && Onward(b, Save(Finish(b, epoch, index, ending)).value)
  {
    hide BatchOk, Onward;
    StatesOnly(b, Finish(b, epoch, index, ending).value);
  }

  // ----- Every move -----

  lemma {:induction false} Unmoved(s: World)
    requires Inv(s)
    ensures Progress(s, s)
  {
    hide BatchStep;
    StoresSame(s.stores);
    forall id | id in s.batches ensures BatchStep(s.batches[id], s.batches[id]) {
      BatchSame(s.batches[id]);
    }
  }

  lemma {:induction false} WorkersOnly(s: World, w: nat, worker: Worker)
    requires Inv(s) && WorkerOk(s, worker)
    ensures Inv(s.(workers := s.workers[w := worker])) && Progress(s, s.(workers := s.workers[w := worker]))
  {
    var t := s.(workers := s.workers[w := worker]);
    Unmoved(s);
    hide BatchStep, BatchOk, ItemsIdentified, IdentitiesOk, StoresGrown;
    forall v | v in t.workers ensures WorkerOk(t, t.workers[v]) {
      if v != w {
        StaysOk(s, t, s.workers[v]);
      }
    }
  }

  lemma {:induction false} NewBatchKeeps(s: World, m: Move)
    requires Inv(s) && m.NewBatch?
    ensures Inv(Next(s, m)) && Progress(s, Next(s, m))
  {
    var t := Next(s, m);
    Unmoved(s);
    hide BatchStep, IdentitiesOk, StoresGrown;
    forall v | v in t.workers ensures WorkerOk(t, t.workers[v]) {
      StaysOk(s, t, s.workers[v]);
    }
  }

  lemma {:induction false} ChangeKeeps(s: World, m: Move)
    requires Inv(s) && (m.Change? || m.AdvanceRound?)
    ensures Inv(Next(s, m)) && Progress(s, Next(s, m))
  {
    hide BatchStep, BatchOk, ItemsIdentified, IdentitiesOk, StoresGrown, WorkerOk, Apply, Onward, Sound, FreshIds, AdvanceConfirmation, Progress;
    Unmoved(s);
    if m.Change? && m.id in s.batches && Usable(s.batches[m.id], m.change) && Apply(s.batches[m.id], m.change).Ok? {
      ApplyKeeps(s.batches[m.id], m.change);
      OnwardKeeps(s, m.id, Apply(s.batches[m.id], m.change).value);
    }
    if m.AdvanceRound? && m.id in s.batches && AdvanceConfirmation(s.batches[m.id], s.stores, m.revision, m.digest, m.ready, m.now).Ok? {
      AdvanceSound(s.batches[m.id], s.stores, m.revision, m.digest, m.ready, m.now);
      SoundKeeps(s, m.id, AdvanceConfirmation(s.batches[m.id], s.stores, m.revision, m.digest, m.ready, m.now).value);
    }
  }

  lemma {:induction false} ClaimMoveKeeps(s: World, m: Move)
    requires Inv(s) && m.ClaimBatch?
    ensures Inv(Next(s, m)) && Progress(s, Next(s, m))
  {
    hide BatchStep, BatchOk, ItemsIdentified, IdentitiesOk, StoresGrown, Claim, Onward;
    Unmoved(s);
    if m.id in s.batches && WorkerOf(s, m.w).Idle? && Save(Claim(s.batches[m.id], m.now)).Ok? {
      var b := Save(Claim(s.batches[m.id], m.now)).value;
      ClaimKeeps(s.batches[m.id], m.now);
      OnwardKeeps(s, m.id, b);
      var u := s.(batches := s.batches[m.id := b]);
      SelfContents(b);
      WorkersOnly(u, m.w, Holding(m.id, b));
    }
  }

  lemma {:induction false} SelfContents(b: Batch)
    ensures SameContents(b, b)
  {
  }

  /** The digest a worker offers is still the item's: an accepted commit registers what was examined. */
  lemma {:induction false} CommitMoveKeeps(s: World, m: Move)
    requires Inv(s) && m.CreateContract?
    ensures Inv(Next(s, m)) && Progress(s, Next(s, m))
  {
    Unmoved(s);
    var worker := WorkerOf(s, m.w);
    if worker.Holding? && worker.batch in s.batches && m.index < |worker.snapshot.items| {
      var b, item := s.batches[worker.batch], worker.snapshot.items[m.index];
      assert WorkerOk(s, worker);
      hide BatchStep, ItemsIdentified, IdentitiesOk, StoresGrown, Sound, Progress;
      var r := CommitDraft(b, s.stores, worker.snapshot.revision, worker.snapshot.epoch, item.id, m.offered, item.digest, m.now);
      if r.Ok? {
        IdFound(b.items, m.index);
        CommitDraftSound(b, s.stores, worker.snapshot.revision, worker.snapshot.epoch, item.id, m.offered, item.digest, m.now);
        SoundKeeps(s, worker.batch, r.value);
      }
    }
  }

  lemma {:induction false} ConfirmMoveKeeps(s: World, m: Move)
    requires Inv(s) && m.ConfirmByItself?
    ensures Inv(Next(s, m)) && Progress(s, Next(s, m))
  {
    hide BatchStep, BatchOk, ItemsIdentified, IdentitiesOk, StoresGrown, Sound, Progress, AutoConfirm, PolicyOf, WorkerOk;
    Unmoved(s);
    var worker := WorkerOf(s, m.w);
    if worker.Holding? && worker.batch in s.batches && m.index < |worker.snapshot.items| {
      var policy := PolicyOf(worker.snapshot.confirmation, m.live, m.liveVersion);
      var r := AutoConfirm(s.batches[worker.batch], s.stores, worker.snapshot.items[m.index].id, policy, m.roles, m.digest, m.ready, m.now);
      if policy.auto && r.Ok? {
        AutoConfirmSound(s.batches[worker.batch], s.stores, worker.snapshot.items[m.index].id, policy, m.roles, m.digest, m.ready, m.now);
        SoundKeeps(s, worker.batch, r.value);
      }
    }
  }

  lemma {:induction false} EndMoveKeeps(s: World, m: Move)
    requires Inv(s) && (m.CompleteItem? || m.EndDispatch? || m.Crash?)
    ensures Inv(Next(s, m)) && Progress(s, Next(s, m))
  {
    hide BatchStep, BatchOk, ItemsIdentified, IdentitiesOk, StoresGrown, Finish, MarkComplete, Onward;
    Unmoved(s);
    var worker := WorkerOf(s, m.w);
    if m.Crash? {
      WorkersOnly(s, m.w, Idle);
    } else if worker.Holding? && worker.batch in s.batches {
      var b := s.batches[worker.batch];
      if m.CompleteItem? {
        if m.index < |worker.snapshot.items| && Save(MarkComplete(b, worker.snapshot.epoch, worker.snapshot.items[m.index].id)).Ok? {
          MarkKeeps(b, worker.snapshot.epoch, worker.snapshot.items[m.index].id);
          OnwardKeeps(s, worker.batch, Save(MarkComplete(b, worker.snapshot.epoch, worker.snapshot.items[m.index].id)).value);
        }
      } else {
        var u := s.(workers := s.workers[m.w := Idle]);
        WorkersOnly(s, m.w, Idle);
        if Save(Finish(b, worker.snapshot.epoch, m.index, m.ending)).Ok? {
          EndKeeps(b, worker.snapshot.epoch, m.index, m.ending);
          OnwardKeeps(u, worker.batch, Save(Finish(b, worker.snapshot.epoch, m.index, m.ending)).value);
        }
      }
    }
  }

  lemma {:induction false} NextKeeps(s: World, m: Move)
    requires Inv(s)
    ensures Inv(Next(s, m)) && Progress(s, Next(s, m))
  {
    hide Inv, Progress, Next;
    match m
    case NewBatch(_, _, _, _) => NewBatchKeeps(s, m);
    case ClaimBatch(_, _, _) => ClaimMoveKeeps(s, m);
    case CreateContract(_, _, _, _) => CommitMoveKeeps(s, m);
    case ConfirmByItself(_, _, _, _, _, _, _, _) => ConfirmMoveKeeps(s, m);
    case Change(_, _) => ChangeKeeps(s, m);
    case AdvanceRound(_, _, _, _, _) => ChangeKeeps(s, m);
    case _ => EndMoveKeeps(s, m);
  }

  // ----- Over runs -----

  /** What any number of steps may make of a batch. */
  predicate BatchRun(a: Batch, b: Batch) {
    && a.epoch <= b.epoch && a.version <= b.version && (a.version == b.version ==> a == b)
    && (forall i :: 0 <= i < |a.items| && a.items[i].contract.Some? ==>
          exists j :: 0 <= j < |b.items| && SameRecord(a.items[i], b.items[j]))
  }

  predicate LongProgress(s: World, t: World) {
    StoresGrown(s.stores, t.stores) && forall id :: id in s.batches ==> id in t.batches && BatchRun(s.batches[id], t.batches[id])
  }

  lemma {:induction false} SameRecordTwice(a: Item, b: Item, c: Item)
    requires SameRecord(a, b) && SameRecord(b, c)
    ensures SameRecord(a, c)
  {
  }

  lemma {:induction false} BatchRunOn(a: Batch, b: Batch, c: Batch)
    requires BatchStep(a, b) && BatchRun(b, c)
    ensures BatchRun(a, c)
  {
    hide SameRecord, PolicyStays;
    forall i | 0 <= i < |a.items| && a.items[i].contract.Some?
      ensures exists j :: 0 <= j < |c.items| && SameRecord(a.items[i], c.items[j])
    {
      var k :| 0 <= k < |b.items| && SameRecord(a.items[i], b.items[k]);
      HasContract(a.items[i], b.items[k]);
      var j :| 0 <= j < |c.items| && SameRecord(b.items[k], c.items[j]);
      SameRecordTwice(a.items[i], b.items[k], c.items[j]);
    }
  }

  lemma {:induction false} HasContract(a: Item, b: Item)
    requires SameRecord(a, b) && a.contract.Some?
    ensures b.contract == a.contract
  {
  }

  lemma {:induction false} ProgressOn(s: World, t: World, u: World)
    requires Progress(s, t) && LongProgress(t, u)
    ensures LongProgress(s, u)
  {
    hide BatchStep, BatchRun;
    forall id | id in s.batches ensures id in u.batches && BatchRun(s.batches[id], u.batches[id]) {
      BatchRunOn(s.batches[id], t.batches[id], u.batches[id]);
    }
  }

  lemma {:induction false} StandingStill(s: World)
    ensures LongProgress(s, s)
  {
    forall id | id in s.batches ensures BatchRun(s.batches[id], s.batches[id]) {
      BatchSame(s.batches[id]);
    }
  }

  lemma {:induction false} RunKeeps(s: World, moves: seq<Move>)
    requires Inv(s)
    ensures Inv(Run(s, moves)) && LongProgress(s, Run(s, moves))
    decreases |moves|
  {
    hide Inv, Progress, LongProgress, Next;
    if moves == [] {
      StandingStill(s);
    } else {
      NextKeeps(s, moves[0]);
      RunKeeps(Next(s, moves[0]), moves[1..]);
      ProgressOn(s, Next(s, moves[0]), Run(s, moves));
    }
  }

  function Start(): World {
    World(map[], Stores(map[], map[]), map[])
  }

  lemma {:induction false} StartInv()
    ensures Inv(Start())
  {
  }

  /**
    One contract per source record: over every run, items of the same source system and external
    record that have a contract have the same one under the same digest, in whatever batch and at
    whatever time; and items of different records never share a contract.
   */
  lemma {:induction false} OneContractPerRecord(before: seq<Move>, after: seq<Move>, id: string, i: nat, id': string, j: nat)
    requires var s, t := Run(Start(), before), Run(Run(Start(), before), after);
             && id in s.batches && i < |s.batches[id].items| && s.batches[id].items[i].contract.Some?
             && id' in t.batches && j < |t.batches[id'].items| && t.batches[id'].items[j].contract.Some?
    ensures var s, t := Run(Start(), before), Run(Run(Start(), before), after);
            var a, b := s.batches[id].items[i], t.batches[id'].items[j];
            && ((s.batches[id].source == t.batches[id'].source && a.record == b.record) <==> a.contract == b.contract)
            && (a.contract == b.contract ==> a.digest == b.digest)
  {
    hide Run, WorkerOk, BatchOk, BatchRun;
    StartInv();
    RunKeeps(Start(), before);
    var s := Run(Start(), before);
    RunKeeps(s, after);
    var t := Run(s, after);
    assert Identified(s.batches[id].source, s.stores, s.batches[id].items[i]);
    assert Identified(t.batches[id'].source, t.stores, t.batches[id'].items[j]);
  }

  /** An item's contract is never changed and the item never dropped: edits only mark it for correction. */
  lemma {:induction false} ContractsLast(before: seq<Move>, after: seq<Move>, id: string, i: nat)
    requires var s := Run(Start(), before); id in s.batches && i < |s.batches[id].items| && s.batches[id].items[i].contract.Some?
    ensures var s, t := Run(Start(), before), Run(Run(Start(), before), after);
            id in t.batches && exists j :: 0 <= j < |t.batches[id].items| && SameRecord(s.batches[id].items[i], t.batches[id].items[j])
  {
    hide Run, Inv, SameRecord;
    StartInv();
    RunKeeps(Start(), before);
    RunKeeps(Run(Start(), before), after);
    assert BatchRun(Run(Start(), before).batches[id], Run(Run(Start(), before), after).batches[id]);
  }

  /**
    A worker whose batch has been claimed anew, paused, withdrawn or edited since has lost it for
    good: however the run goes on, its commit, its completion and its end of dispatch all fail.
   */
  lemma {:induction false} StaleWorkerFails(before: seq<Move>, after: seq<Move>, id: string, epoch: nat, revision: nat, item: nat, offered: nat,
                                            digest: string, index: nat, ending: Ending, now: int)
    requires id in Run(Start(), before).batches && epoch < Run(Start(), before).batches[id].epoch
    ensures var t := Run(Run(Start(), before), after);
            && id in t.batches
            && CommitDraft(t.batches[id], t.stores, revision, epoch, item, offered, digest, now).Err?
            && MarkComplete(t.batches[id], epoch, item).Err? && Finish(t.batches[id], epoch, index, ending).Err?
  {
    hide Run, Inv;
    StartInv();
    RunKeeps(Start(), before);
    RunKeeps(Run(Start(), before), after);
    assert BatchRun(Run(Start(), before).batches[id], Run(Run(Start(), before), after).batches[id]);
  }

  /** The version identifies the state of a batch: what was checked of one version holds of it later. */
  lemma {:induction false} SameVersionSameBatch(before: seq<Move>, after: seq<Move>, id: string)
    requires id in Run(Start(), before).batches
    ensures var s, t := Run(Start(), before), Run(Run(Start(), before), after);
            id in t.batches && (s.batches[id].version == t.batches[id].version ==> s.batches[id] == t.batches[id])
  {
    hide Run, Inv;
    StartInv();
    RunKeeps(Start(), before);
    RunKeeps(Run(Start(), before), after);
    assert BatchRun(Run(Start(), before).batches[id], Run(Run(Start(), before), after).batches[id]);
  }

  /**
    Policies over every run, from any state that is in order, old batches without a pinned policy
    included: a pinned decision and its switch version stay until the confirmation is put aside; AUTO is
    only ever approved or withdrawn; while a confirmation is not approved nothing is confirmed, and a
    MANUAL approval means everything is.
   */
  lemma {:induction false} PolicyFrozen(s: World, moves: seq<Move>, m: Move, id: string)
    requires Inv(s) && id in Run(s, moves).batches
    ensures var t, u := Run(s, moves), Next(Run(s, moves), m);
            && id in u.batches && PolicyStays(t.batches[id].confirmation, u.batches[id].confirmation)
    ensures var b := Run(s, moves).batches[id];
            && (b.confirmation.Some? && b.confirmation.value.decision == Auto ==> b.confirmation.value.state in {Approved, Withdrawn})
            && ((exists i :: 0 <= i < |b.items| && b.items[i].confirmed) ==> b.confirmation.Some? && b.confirmation.value.state == Approved)
            && (b.confirmation.Some? && b.confirmation.value.decision == Manual && b.confirmation.value.state == Approved ==>
                  forall i :: 0 <= i < |b.items| ==> b.items[i].confirmed)
  {
    RunKeeps(s, moves);
    hide Run, Next, WorkerOk, IdentitiesOk, ItemsIdentified, ItemsApart;
    NextKeeps(Run(s, moves), m);
    assert BatchOk(Run(s, moves).batches[id]);
    assert BatchStep(Run(s, moves).batches[id], Next(Run(s, moves), m).batches[id]);
  }

  predicate IsManual(b: Batch) {
    b.confirmation.Some? && b.confirmation.value.decision == Manual
  }

  /**
    The automatic confirmation leaves every batch alone whose confirmation is MANUAL now, whichever
    worker asks for it: one that claimed the batch before there was a confirmation, under AUTO, or
    under a switch that was on. Nor does a worker ask that claimed the batch under MANUAL.
   */
  lemma {:induction false} ManualStays(s: World, moves: seq<Move>, m: Move)
    requires Inv(s) && m.ConfirmByItself?
    ensures var t := Run(s, moves); forall id :: id in t.batches && IsManual(t.batches[id]) ==>
              id in Next(t, m).batches && Next(t, m).batches[id] == t.batches[id]
    ensures var t, worker := Run(s, moves), WorkerOf(Run(s, moves), m.w);
            worker.Holding? && (IsManual(worker.snapshot) || (worker.batch in t.batches && IsManual(t.batches[worker.batch]))) ==>
              Next(t, m) == t
  {
    RunKeeps(s, moves);
    hide Run, Inv, AutoConfirm, BatchOk;
    var t, worker := Run(s, moves), WorkerOf(Run(s, moves), m.w);
    if worker.Holding? && worker.batch in t.batches && m.index < |worker.snapshot.items| && IsManual(t.batches[worker.batch]) {
      OneBatchOk(t, worker.batch);
      ManualIsLeftAlone(t.batches[worker.batch], t.stores, worker.snapshot.items[m.index].id,
                        PolicyOf(worker.snapshot.confirmation, m.live, m.liveVersion), m.roles, m.digest, m.ready, m.now);
      assert t.(batches := t.batches[worker.batch := t.batches[worker.batch]], stores := t.stores) == t;
    }
  }

  lemma {:induction false} OneBatchOk(s: World, id: string)
    requires Inv(s) && id in s.batches
    ensures BatchOk(s.batches[id])
  {
  }
}

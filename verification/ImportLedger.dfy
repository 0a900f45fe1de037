/**
  The operations of an import that reach beyond the batch: creating a contract for a source record,
  and confirming items, by hand or automatically (internal/infrastructure/mysql/contract_import.go,
  import_confirmation.go and contract_import_auto_approve.go). Each is one transaction.
 */
module ImportLedger {
  import opened Wrappers
  import opened ImportBatch

  /** The registered identity of a source record, and a contract created for one. */
  datatype Identity = Identity(digest: string, item: nat, contract: Option<nat>)
  datatype Contract = Contract(origin: nat, digest: string, version: nat)

  /** Identities by source system and external record. */
  datatype Stores = Stores(identities: map<(string, string), Identity>, contracts: map<nat, Contract>)

  datatype Written = Written(batch: Batch, stores: Stores)

  type LedgerOutcome = Result<Written, ImportError>

  function WithItem(b: Batch, i: nat, item: Item): Batch
    requires i < |b.items|
  {
    b.(items := b.items[i := item])
  }

  function Saved(b: Batch): Batch {
    b.(version := b.version + 1)
  }

  // ----- Creating the contract -----

  function IdentityOf(b: Batch, stores: Stores, item: Item): Identity {
    if (b.source, item.record) in stores.identities then stores.identities[(b.source, item.record)] else Identity(item.digest, item.id, None)
  }

  /** The item takes the contract; the identity names it. */
  function Linked(b: Batch, stores: Stores, i: nat, c: nat): Written
    requires i < |b.items|
  {
    var item := b.items[i];
    Written(Saved(WithItem(b, i, item.(contract := Some(c), state := Created, issues := []))),
            stores.(identities := stores.identities[(b.source, item.record) := IdentityOf(b, stores, item).(contract := Some(c))]))
  }

  /**
    Under the fence of revision, epoch, execution and lease: an item that has its contract keeps it, a
    known record with the same digest shares its contract, and a new one gets the contract offered.
   */
  function CommitDraft(b: Batch, stores: Stores, revision: nat, epoch: nat, id: nat, offered: nat, digest: string, now: int): LedgerOutcome {
    var i := Find(b.items, ById(id), 0);
    if b.revision != revision || !Executing(b, epoch) || b.leaseUntil <= now || i == |b.items| then Err(Conflict)
    else
      var item := b.items[i];
      if item.contract.Some? then Ok(Written(b, stores))
      else
        var identity := IdentityOf(b, stores, item);
        if identity.digest != item.digest then Err(IdentityConflict)
        else if identity.contract.Some? then Ok(Linked(b, stores, i, identity.contract.value))
        else if offered in stores.contracts then Err(Conflict)
        else Ok(Linked(b, stores.(contracts := stores.contracts[offered := Contract(id, digest, 1)]), i, offered))
  }

  // ----- Confirming an item -----

  predicate Confirmable(stores: Stores, item: Item, ready: set<nat>) {
    && item.sourceRevision != 0 && item.id in ready && item.mode != NormalMode && item.contract.Some?
    && item.contract.value in stores.contracts
    && stores.contracts[item.contract.value].version == 1 && stores.contracts[item.contract.value].origin == item.id
  }

  /** The contract takes its final version; `ready` are the items whose evidence and file are in order. */
  function ConfirmItem(b: Batch, stores: Stores, i: nat, ready: set<nat>): LedgerOutcome
    requires i < |b.items|
  {
    var item := b.items[i];
    if item.confirmed then Ok(Written(b, stores))
    else if !Confirmable(stores, item, ready) then Err(BadManifest)
    else
      var c := item.contract.value;
      Ok(Written(WithItem(b, i, item.(confirmed := true)), stores.(contracts := stores.contracts[c := stores.contracts[c].(version := 2)])))
  }

  /** The first i items confirmed one after the other. */
  function ConfirmItems(b: Batch, stores: Stores, i: nat, ready: set<nat>): LedgerOutcome
    requires i <= |b.items|
    ensures ConfirmItems(b, stores, i, ready).Ok? ==> |ConfirmItems(b, stores, i, ready).value.batch.items| == |b.items|
  {
    if i == 0 then Ok(Written(b, stores))
    else
      match ConfirmItems(b, stores, i - 1, ready)
      case Err(e) => Err(e)
      case Ok(w) => ConfirmItem(w.batch, w.stores, i - 1, ready)
  }

  // ----- The signing round -----

  predicate Eligible(c: Confirmation, command: Command) {
    exists r :: r in command.roles && r in c.assignees && command.actor in c.assignees[r]
  }

  /** The roles a command approves, among those it was given under and its actor is assigned to. */
  function Granted(c: Confirmation, command: Command, n: nat): seq<string>
    requires n <= |command.roles|
  {
    if n == 0 then c.approvedRoles
    else
      var before, role := Granted(c, command, n - 1), command.roles[n - 1];
      if role in c.assignees && command.actor in c.assignees[role] && command.action == Approve && role !in before then before + [role] else before
  }

  /** The commands in order, up to a rejection by somebody eligible. */
  function Tally(c: Confirmation, n: nat): Confirmation
    requires n <= |c.commands|
    ensures Tally(c, n).commands == c.commands && Tally(c, n).decision == c.decision && Tally(c, n).policyVersion == c.policyVersion
    ensures Tally(c, n).state == c.state || Tally(c, n).state == Rejected
  {
    if n == 0 then c
    else
      var before, command := Tally(c, n - 1), c.commands[n - 1];
      if before.state == Rejected then before
      else
        var after := before.(approvedRoles := Granted(before, command, |command.roles|));
        if Eligible(before, command) && command.action == Reject then after.(state := Rejected) else after
  }

  function Parked(b: Batch, c: Confirmation): Batch {
    b.(confirmation := Some(c), state := Paused, epoch := b.epoch + 1, leaseUntil := 0)
  }

  predicate WithdrawnByCreator(b: Batch, c: Confirmation) {
    exists k :: 0 <= k < |c.commands| && c.commands[k].action == Withdraw && c.commands[k].actor == b.actor
  }

  /** One run of the confirmation activity over the stored commands. */
  function AdvanceConfirmation(b: Batch, stores: Stores, revision: nat, digest: string, ready: set<nat>, now: int): LedgerOutcome {
    if b.confirmation.None? || b.confirmation.value.digest != digest || b.confirmation.value.revision != revision || b.revision != revision then
      Err(BadManifest)
    else
      var c := b.confirmation.value;
      if c.state in {Approved, Rejected, Withdrawn, Lapsed} then Ok(Written(b, stores))
      else if c.expiresAt <= now then
        Ok(Written(Saved(if b.state != Completed then Parked(b, c.(state := Lapsed)) else b.(confirmation := Some(c.(state := Lapsed)))), stores))
      else if WithdrawnByCreator(b, c) then Ok(Written(Saved(Parked(b, c.(state := Withdrawn))), stores))
      else if exists i :: 0 <= i < |b.items| && b.items[i].state != Complete then Ok(Written(b, stores))
      else
        var tallied := Tally(c.(state := PendingApproval), |c.commands|);
        if tallied.state == PendingApproval && c.roles != [] && |tallied.approvedRoles| == |c.roles| then
          match ConfirmItems(b, stores, |b.items|, ready)
          case Err(e) => Err(e)
          case Ok(w) =>
            Ok(Written(Saved(w.batch.(confirmation := Some(tallied.(state := Approved)), state := TargetsPending)), w.stores))
        else if tallied.state == c.state && |tallied.approvedRoles| == |c.approvedRoles| then Ok(Written(b, stores))
        else Ok(Written(Saved(b.(confirmation := Some(tallied))), stores))
  }

  // ----- The automatic confirmation -----

  /** What a worker decided from the batch it claimed: the switch version, and whether an old confirmation may be upgraded. */
  datatype Policy = Policy(auto: bool, version: nat, upgrade: bool)

  /** A pinned policy alone decides; otherwise the switch of the moment. */
  function PolicyOf(confirmation: Option<Confirmation>, live: bool, liveVersion: nat): Policy {
    if confirmation.Some? && confirmation.value.decision != Unpinned then
      Policy(confirmation.value.decision == Auto, confirmation.value.policyVersion, false)
    else if confirmation.None? then Policy(live, liveVersion, false)
    else Policy(live, liveVersion, live)
  }

  predicate Upgradable(c: Confirmation, policy: Policy, now: int) {
    && c.decision == Unpinned && policy.upgrade && c.state in {Starting, Lapsed} && c.commands == [] && c.approvedRoles == []
    && (c.state == Starting ==> c.expiresAt > now)
  }

  /** The confirmation under which an item is confirmed automatically, unless a round of signing stands in the way. */
  function AutoConfirmation(b: Batch, policy: Policy, roles: seq<string>, digest: string, now: int): Option<Confirmation> {
    if b.confirmation.None? then
      Some(Confirmation(Approved, Auto, policy.version, b.revision, digest, roles, roles, map[], [], now + 24 * 3600))
    else
      var c := b.confirmation.value;
      if Upgradable(c, policy, now) then Some(c.(decision := Auto, policyVersion := policy.version, approvedRoles := c.roles, state := Approved))
      else if c.state == Approved then Some(c)
      else None
  }

  /** Not fenced by the epoch, but by the confirmation: only an approved one lets the item through. */
  function AutoConfirm(b: Batch, stores: Stores, id: nat, policy: Policy, roles: seq<string>, digest: string, ready: set<nat>, now: int): LedgerOutcome {
    var i := Find(b.items, ById(id), 0);
    if i == |b.items| then Err(Conflict)
    else if b.items[i].confirmed then Ok(Written(b, stores))
    else if b.items[i].mode !in {ArchiveOnly, HistoricalClosed} then Err(Unsupported)
    else if id !in ready || b.items[i].contract.None? then Err(BadManifest)
    else if AutoConfirmation(b, policy, roles, digest, now).None? then Err(Conflict)
    else
      match ConfirmItem(b, stores, i, ready)
      case Err(e) => Err(e)
      case Ok(w) => Ok(Written(Saved(w.batch.(confirmation := AutoConfirmation(b, policy, roles, digest, now))), w.stores))
  }

  // ----- What they keep -----

  /** The item is the same record; it may have got its contract, and it may have been confirmed. */
  predicate Grown(a: Item, b: Item) {
    && a.id == b.id && a.key == b.key && a.record == b.record && a.content == b.content && a.mode == b.mode
    && a.digest == b.digest && a.sourceRevision == b.sourceRevision
    && (a.contract.Some? ==> b.contract == a.contract) && (a.confirmed ==> b.confirmed)
  }

  predicate ItemsGrown(a: seq<Item>, b: seq<Item>) {
    |a| == |b| && forall i :: 0 <= i < |a| ==> Grown(a[i], b[i])
  }

  /** Identities keep their digest and, once they have one, their contract; contracts keep their content. */
  predicate StoresGrown(a: Stores, b: Stores) {
    && (forall k :: k in a.identities ==>
          && k in b.identities && b.identities[k].digest == a.identities[k].digest
          && (a.identities[k].contract.Some? ==> b.identities[k].contract == a.identities[k].contract))
    && (forall c :: c in a.contracts ==>
          && c in b.contracts && b.contracts[c].origin == a.contracts[c].origin && b.contracts[c].digest == a.contracts[c].digest
          && a.contracts[c].version <= b.contracts[c].version)
  }

  /** Every identity with a contract has it to itself, with the digest registered. */
  predicate IdentitiesOk(stores: Stores) {
    && (forall k :: k in stores.identities && stores.identities[k].contract.Some? ==>
          stores.identities[k].contract.value in stores.contracts
          && stores.contracts[stores.identities[k].contract.value].digest == stores.identities[k].digest)
    && (forall k, l :: k in stores.identities && l in stores.identities && k != l && stores.identities[k].contract.Some? ==>
          stores.identities[l].contract != stores.identities[k].contract)
  }

  /** An item's contract is that of its record's identity, registered under the item's digest. */
  predicate Identified(source: string, stores: Stores, item: Item) {
    item.contract.Some? ==>
      && (source, item.record) in stores.identities
      && stores.identities[(source, item.record)].contract == item.contract && stores.identities[(source, item.record)].digest == item.digest
  }

  predicate ItemsIdentified(b: Batch, stores: Stores) {
    forall i :: 0 <= i < |b.items| ==> Identified(b.source, stores, b.items[i])
  }

  /** What a transaction on one batch and the shared stores has to establish. */
  predicate Sound(b: Batch, stores: Stores, w: Written) {
    && BatchOk(w.batch) && IdentitiesOk(w.stores) && StoresGrown(stores, w.stores) && ItemsIdentified(w.batch, w.stores)
    && ItemsGrown(b.items, w.batch.items) && PolicyStays(b.confirmation, w.batch.confirmation)
    && (w.batch == b || Fenced(b, w.batch))
  }

  lemma {:induction false} GrownApart(a: seq<Item>, b: seq<Item>)
    requires ItemsApart(a) && ItemsGrown(a, b)
    ensures ItemsApart(b)
  {
  }

  lemma {:induction false} IdFound(items: seq<Item>, i: nat)
    requires ItemsApart(items) && i < |items|
    ensures Find(items, ById(items[i].id), 0) == i
  {
    var at := Find(items, ById(items[i].id), 0);
    assert at <= i && items[at].id == items[i].id;
  }

  lemma {:induction false} StillIdentified(source: string, a: Stores, b: Stores, item: Item)
    requires StoresGrown(a, b) && Identified(source, a, item)
    ensures Identified(source, b, item)
  {
  }

  /** The contract c is free for the item's record: nobody else's, and its own if it has one. */
  predicate FreeFor(b: Batch, stores: Stores, item: Item, c: nat) {
    && IdentityOf(b, stores, item).digest == item.digest && IdentityOf(b, stores, item).contract in {None, Some(c)}
    && c in stores.contracts && stores.contracts[c].digest == item.digest
    && forall k :: k in stores.identities && k != (b.source, item.record) ==> stores.identities[k].contract != Some(c)
  }

  lemma {:induction false} LinkedStores(b: Batch, before: Stores, stores: Stores, i: nat, c: nat)
    requires IdentitiesOk(before) && StoresGrown(before, stores) && stores.identities == before.identities
    requires i < |b.items| && FreeFor(b, stores, b.items[i], c)
    ensures IdentitiesOk(Linked(b, stores, i, c).stores) && StoresGrown(before, Linked(b, stores, i, c).stores)
  {
  }

  lemma {:induction false} LinkedSound(b: Batch, before: Stores, stores: Stores, i: nat, c: nat)
    requires BatchOk(b) && ItemsIdentified(b, before) && IdentitiesOk(before) && StoresGrown(before, stores) && stores.identities == before.identities
    requires i < |b.items| && b.items[i].contract.None? && FreeFor(b, stores, b.items[i], c)
    ensures Sound(b, before, Linked(b, stores, i, c))
  {
    var w := Linked(b, stores, i, c);
    LinkedStores(b, before, stores, i, c);
    GrownApart(b.items, w.batch.items);
    hide IdentitiesOk, StoresGrown, ItemsApart;
    forall j | 0 <= j < |b.items| && j != i ensures Identified(b.source, w.stores, w.batch.items[j]) {
      StillIdentified(b.source, before, w.stores, b.items[j]);
    }
  }

  /** Whatever contract an item gets is the only one of its source record, under one digest. */
  lemma {:induction false} CommitDraftSound(b: Batch, stores: Stores, revision: nat, epoch: nat, id: nat, offered: nat, digest: string, now: int)
    requires BatchOk(b) && ItemsIdentified(b, stores) && IdentitiesOk(stores)
    requires CommitDraft(b, stores, revision, epoch, id, offered, digest, now).Ok?
    requires Find(b.items, ById(id), 0) < |b.items| ==> b.items[Find(b.items, ById(id), 0)].digest == digest
    ensures Sound(b, stores, CommitDraft(b, stores, revision, epoch, id, offered, digest, now).value)
  {
    var i := Find(b.items, ById(id), 0);
    var item := b.items[i];
    if item.contract.None? {
      var identity := IdentityOf(b, stores, item);
      if identity.contract.Some? {
        LinkedSound(b, stores, stores, i, identity.contract.value);
      } else {
        LinkedSound(b, stores, stores.(contracts := stores.contracts[offered := Contract(id, digest, 1)]), i, offered);
      }
    }
  }

  /** Confirmed items beside the others: everything but the confirmation is in order. */
  predicate Halfway(b: Batch, stores: Stores, w: Written) {
    && IdentitiesOk(w.stores) && StoresGrown(stores, w.stores) && ItemsIdentified(w.batch, w.stores)
    && ItemsGrown(b.items, w.batch.items) && w.batch == b.(items := w.batch.items)
    && forall i :: 0 <= i < |b.items| && w.batch.items[i].confirmed && !b.items[i].confirmed ==> w.batch.items[i].contract.Some?
  }

  lemma {:induction false} ConfirmItemHalfway(b: Batch, stores: Stores, before: Written, i: nat, ready: set<nat>)
    requires Halfway(b, stores, before) && i < |b.items| == |before.batch.items| && ConfirmItem(before.batch, before.stores, i, ready).Ok?
    ensures Halfway(b, stores, ConfirmItem(before.batch, before.stores, i, ready).value)
    ensures ConfirmItem(before.batch, before.stores, i, ready).value.batch.items[i].confirmed
    ensures forall j :: 0 <= j < |b.items| && j != i ==>
              ConfirmItem(before.batch, before.stores, i, ready).value.batch.items[j] == before.batch.items[j]
  {
    var w := ConfirmItem(before.batch, before.stores, i, ready).value;
    forall j | 0 <= j < |b.items| ensures Identified(b.source, w.stores, w.batch.items[j]) {
      StillIdentified(b.source, before.stores, w.stores, before.batch.items[j]);
    }
  }

  lemma {:induction false} ConfirmItemsHalfway(b: Batch, stores: Stores, i: nat, ready: set<nat>)
    requires i <= |b.items| && ItemsIdentified(b, stores) && IdentitiesOk(stores) && ConfirmItems(b, stores, i, ready).Ok?
    ensures Halfway(b, stores, ConfirmItems(b, stores, i, ready).value)
    ensures forall j :: 0 <= j < i ==> ConfirmItems(b, stores, i, ready).value.batch.items[j].confirmed
    decreases i
  {
    hide Halfway, ConfirmItem;
    if i == 0 {
      NothingConfirmed(b, stores);
    } else {
      ConfirmItemsHalfway(b, stores, i - 1, ready);
      ConfirmItemHalfway(b, stores, ConfirmItems(b, stores, i - 1, ready).value, i - 1, ready);
    }
  }

  lemma {:induction false} NothingConfirmed(b: Batch, stores: Stores)
    requires ItemsIdentified(b, stores) && IdentitiesOk(stores)
    ensures Halfway(b, stores, Written(b, stores))
  {
  }

  /** A batch that changes only in its confirmation, its state and its fences. */
  lemma {:induction false} SameItemsSound(b: Batch, stores: Stores, next: Batch)
    requires BatchOk(b) && ItemsIdentified(b, stores) && IdentitiesOk(stores)
    requires next.items == b.items && next.source == b.source && next.actor == b.actor && next.revision == b.revision
    requires next.version == b.version + 1 && next.epoch >= b.epoch && (next.state == Running ==> b.state == Running)
    requires ConfirmationOk(next) && PolicyStays(b.confirmation, next.confirmation)
    ensures Sound(b, stores, Written(next, stores))
  {
  }

  lemma {:induction false} ConfirmedSound(b: Batch, stores: Stores, w: Written, next: Batch)
    requires BatchOk(b) && Halfway(b, stores, w) && next.items == w.batch.items
    requires next.source == b.source && next.actor == b.actor && next.revision == b.revision
    requires next.version == b.version + 1 && next.epoch == b.epoch && (next.state == Running ==> b.state == Running)
    requires next.confirmation.Some? && next.confirmation.value.state == Approved && PolicyStays(b.confirmation, next.confirmation)
    requires next.confirmation.value.decision == Manual ==> forall i :: 0 <= i < |next.items| ==> next.items[i].confirmed
    ensures Sound(b, stores, Written(next, w.stores))
  {
    GrownApart(b.items, w.batch.items);
  }

  /** The signing round confirms all items or none, and changes no policy. */
  lemma {:induction false} AdvanceSound(b: Batch, stores: Stores, revision: nat, digest: string, ready: set<nat>, now: int)
    requires BatchOk(b) && ItemsIdentified(b, stores) && IdentitiesOk(stores)
    requires AdvanceConfirmation(b, stores, revision, digest, ready, now).Ok?
    ensures Sound(b, stores, AdvanceConfirmation(b, stores, revision, digest, ready, now).value)
  {
    hide Halfway, Sound, ItemsIdentified, IdentitiesOk, ConfirmItems, Tally, WithdrawnByCreator, ItemsApart;
    var w := AdvanceConfirmation(b, stores, revision, digest, ready, now).value;
    if w == Written(b, stores) {
      UnchangedSound(b, stores);
    } else {
      var c := b.confirmation.value;
      var tallied := Tally(c.(state := PendingApproval), |c.commands|);
      if c.expiresAt > now && !WithdrawnByCreator(b, c) && tallied.state == PendingApproval && c.roles != []
         && |tallied.approvedRoles| == |c.roles| {
        ConfirmItemsHalfway(b, stores, |b.items|, ready);
        HalfwayBatch(b, stores, ConfirmItems(b, stores, |b.items|, ready).value);
        ConfirmedSound(b, stores, ConfirmItems(b, stores, |b.items|, ready).value, w.batch);
      } else {
        SameItemsSound(b, stores, w.batch);
      }
    }
  }

  lemma {:induction false} HalfwayBatch(b: Batch, stores: Stores, w: Written)
    requires Halfway(b, stores, w)
    ensures w.batch == b.(items := w.batch.items) && |w.batch.items| == |b.items|
  {
  }

  lemma {:induction false} UnchangedSound(b: Batch, stores: Stores)
    requires BatchOk(b) && ItemsIdentified(b, stores) && IdentitiesOk(stores)
    ensures Sound(b, stores, Written(b, stores))
  {
  }

  /** The automatic confirmation confirms one item under an approved confirmation, whatever its epoch. */
  lemma {:induction false} AutoConfirmSound(b: Batch, stores: Stores, id: nat, policy: Policy, roles: seq<string>, digest: string, ready: set<nat>, now: int)
    requires BatchOk(b) && ItemsIdentified(b, stores) && IdentitiesOk(stores)
    requires AutoConfirm(b, stores, id, policy, roles, digest, ready, now).Ok?
    ensures Sound(b, stores, AutoConfirm(b, stores, id, policy, roles, digest, ready, now).value)
  {
    hide Halfway, Sound, ItemsIdentified, IdentitiesOk, ConfirmItem, ItemsApart;
    var i := Find(b.items, ById(id), 0);
    if b.items[i].confirmed {
      UnchangedSound(b, stores);
    } else {
      NothingConfirmed(b, stores);
      ConfirmItemHalfway(b, stores, Written(b, stores), i, ready);
      var w := ConfirmItem(b, stores, i, ready).value;
      HalfwayBatch(b, stores, w);
      ConfirmedSound(b, stores, w, Saved(w.batch.(confirmation := AutoConfirmation(b, policy, roles, digest, now))));
    }
  }

  /** Under a MANUAL confirmation the automatic one does nothing. */
  lemma {:induction false} ManualIsLeftAlone(b: Batch, stores: Stores, id: nat, policy: Policy, roles: seq<string>, digest: string, ready: set<nat>, now: int)
    requires BatchOk(b) && b.confirmation.Some? && b.confirmation.value.decision == Manual
    ensures AutoConfirm(b, stores, id, policy, roles, digest, ready, now) in
              {Ok(Written(b, stores)), Err(Conflict), Err(Unsupported), Err(BadManifest)}
    ensures b.confirmation.value.state != Approved ==>
              AutoConfirm(b, stores, id, policy, roles, digest, ready, now).Err?
  {
    hide ConfirmItem;
  }
}

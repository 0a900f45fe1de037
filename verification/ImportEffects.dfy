/**
  What the operations on an import batch bring about and exactly when: previews, commits, submissions,
  commands on a confirmation, pauses, claims and contracts; and that only what was previewed is ever executed.
 */
module ImportEffects {
  import opened Wrappers
  import opened ImportBatch
  import opened ImportLedger
  import opened ImportRuns

  // ----- Editing and previewing -----

  /** A batch may be edited under its version while it lives, unless it executes, is over, or has a confirmation still standing. */
  predicate Open(b: Batch, version: nat, now: int) {
    && b.version == version && b.expiresAt > now
    && (if b.confirmation.Some? then b.confirmation.value.state in {Withdrawn, Rejected, Lapsed}
        else b.state !in {Queued, Running, Completed, Expired})
  }

  /** Editing puts a confirmation that has come to nothing aside, and takes the batch back to a draft. */
  lemma {:induction false} EditableExactly(b: Batch, version: nat, now: int)
    ensures Editable(b, version, now).Ok? <==> Open(b, version, now)
    ensures Editable(b, version, now).Ok? ==>
              var open := Editable(b, version, now).value;
              && open.items == b.items && open.revision == b.revision && open.confirmation == None
              && (b.confirmation == None ==> open == b)
              && (b.confirmation.Some? ==> open.past == b.past + [b.confirmation.value] && open.state == Draft && !open.operation
                                           && open.commitKey == "" && open.committedRevision == 0 && open.epoch == b.epoch + 1)
  {
  }

  /** A new source counts the revision up and takes the batch back to a draft; a known one does not. */
  lemma {:induction false} SourceExactly(b: Batch, version: nat, key: string, known: bool, now: int)
    ensures AddSource(b, version, key, known, now).Ok?
            <==> Open(b, version, now) && forall i :: 0 <= i < |b.items| ==> b.items[i].key != key || b.items[i].contract == None
    ensures AddSource(b, version, key, known, now).Ok? ==>
              var next := AddSource(b, version, key, known, now).value;
              && next.items == b.items && next.confirmation == None
              && next.revision == (if known then b.revision else b.revision + 1)
              && (!known ==> next.state == Draft && next.token == 0 && next.epoch > b.epoch)
  {
    EditableExactly(b, version, now);
    hide Editable;
  }

  /** A line that would change what its item's contract was made of. */
  predicate Alters(items: seq<Item>, line: Line) {
    exists i :: 0 <= i < |items| && items[i].key == line.key && items[i].contract.Some?
                && (items[i].record != line.record || items[i].content != line.content || items[i].mode != line.mode)
  }

  /**
    A manifest is accepted, or asks for a correction, exactly when it is valid, for the batch's source, and every
    line has its file staged, at least up to the first line that alters a contract.
   */
  lemma {:induction false} ManifestExactly(b: Batch, version: nat, source: string, lines: seq<Line>, now: int)
    requires ItemsApart(b.items)
    ensures SetManifest(b, version, source, lines, now).Ok?
            <==> && ValidManifest(lines) && Open(b, version, now) && source == b.source
                 && forall k :: 0 <= k < |lines| && !lines[k].staged ==>
                      exists j :: 0 <= j < k && Alters(b.items, lines[j]) && lines[j].staged && forall h :: 0 <= h < j ==> lines[h].staged
    ensures SetManifest(b, version, source, lines, now).Ok? ==>
              var next := SetManifest(b, version, source, lines, now).value;
              next.token == 0 && next.confirmation == None && next.epoch > b.epoch
  {
    EditableExactly(b, version, now);
    EditableEpoch(b, version, now);
    hide Editable, Open;
    if ValidManifest(lines) && Editable(b, version, now).Ok? && source == b.source {
      var stop := FirstStop(b.items, lines, 0);
      forall k | 0 <= k < |lines| ensures Stops(b.items, lines[k]) <==> !lines[k].staged || Alters(b.items, lines[k]) {
        AltersStops(b.items, lines[k]);
      }
      hide Stops, Alters;
      FirstUnstaged(b.items, lines, stop);
    }
    hide FirstStop, Stops, Alters, Renewed;
  }

  lemma {:induction false} AltersStops(items: seq<Item>, line: Line)
    requires ItemsApart(items)
    ensures Stops(items, line) <==> !line.staged || Alters(items, line)
  {
    var at := Find(items, ByKey(line.key), 0);
    if i :| 0 <= i < |items| && items[i].key == line.key {
      assert at == i;
    }
  }

  lemma {:induction false} FirstUnstaged(items: seq<Item>, lines: seq<Line>, stop: nat)
    requires stop <= |lines| && (stop < |lines| ==> !lines[stop].staged || Alters(items, lines[stop]))
    requires forall k :: 0 <= k < stop ==> lines[k].staged && !Alters(items, lines[k])
    ensures (stop < |lines| ==> lines[stop].staged)
            <==> forall k :: 0 <= k < |lines| && !lines[k].staged ==>
                   exists j :: 0 <= j < k && Alters(items, lines[j]) && lines[j].staged && forall h :: 0 <= h < j ==> lines[h].staged
  {
    hide Alters;
    if stop < |lines| && lines[stop].staged {
      forall k | 0 <= k < |lines| && !lines[k].staged
        ensures exists j :: 0 <= j < k && Alters(items, lines[j]) && lines[j].staged && forall h :: 0 <= h < j ==> lines[h].staged
      {
        assert stop < k && Alters(items, lines[stop]);
      }
    }
  }

  lemma {:induction false} EditableEpoch(b: Batch, version: nat, now: int)
    ensures Editable(b, version, now).Ok? ==>
              Editable(b, version, now).value.epoch >= b.epoch && Editable(b, version, now).value.source == b.source
  {
  }

  /** What the preview makes of an item: one with a contract stays, a good one is ready under its digest, a bad one is blocked. */
  predicate Examined(a: Item, b: Item, finding: Finding) {
    if a.contract.Some? then b == a
    else match finding
         case Good(digest, provision) => b == a.(state := b.state, issues := [], digest := digest) && b.state == (if provision then NeedsProvision else Ready)
         case Bad(codes) => b == a.(state := BlockedItem, issues := codes)
  }

  /** A batch is previewed exactly when nothing was found wrong with it; the token it gets lives for half an hour. */
  lemma {:induction false} PreviewExactly(b: Batch, version: nat, revision: nat, findings: seq<Finding>, mixed: bool, token: nat, now: int)
    requires |findings| == |b.items|
    ensures var r := Preview(b, version, revision, findings, mixed, token, now);
            && (r.Ok? <==> Open(b, version, now) && b.revision == revision && b.items != [] && b.state !in {Queued, Running, Completed})
            && (r.Ok? ==>
                  && r.value.state == (if !mixed && (forall i :: 0 <= i < |b.items| ==> b.items[i].contract.Some? || findings[i].Good?)
                                       then Previewed else BlockedBatch)
                  && |r.value.items| == |b.items|
                  && (forall i :: 0 <= i < |b.items| ==> Examined(b.items[i], r.value.items[i], findings[i]))
                  && r.value.token == token && r.value.tokenExpires == now + 1800 && r.value.revision == b.revision && r.value.confirmation == None)
  {
    EditableExactly(b, version, now);
    hide Editable;
  }

  // ----- Committing, pausing and resuming -----

  /** The creator's token of the current preview, still alive. */
  predicate Live(b: Batch, actor: string, revision: nat, token: nat, now: int) {
    && actor == b.actor && b.revision == revision && b.state == ImportBatch.Previewed && b.token == token && token != 0 && b.tokenExpires > now
  }

  /** A new commit queues exactly a previewed batch of normal items, for its creator with the live token. */
  lemma {:induction false} CommitExactly(b: Batch, actor: string, revision: nat, token: nat, key: string, now: int)
    requires !(b.operation && b.committedRevision == revision)
    ensures var r := Commit(b, actor, revision, token, key, now);
            && (r.Ok? <==> Live(b, actor, revision, token, now) && b.expiresAt > now
                           && forall i :: 0 <= i < |b.items| ==> b.items[i].mode == NormalMode)
            && (r.Ok? ==> r.value == b.(state := Queued, operation := true, committedRevision := revision, commitKey := key, epoch := b.epoch + 1))
  {
  }

  /** Committing the same revision again changes nothing, and is refused under another key. */
  lemma {:induction false} CommitTwice(b: Batch, actor: string, revision: nat, token: nat, key: string, now: int)
    requires b.operation && b.committedRevision == revision
    ensures Commit(b, actor, revision, token, key, now).Ok? <==> actor == b.actor && b.revision == revision && b.commitKey == key
    ensures Commit(b, actor, revision, token, key, now).Ok? ==> Commit(b, actor, revision, token, key, now).value == b
  {
  }

  /** A submission queues exactly a previewed batch of historical items, and freezes its confirmation for 72 hours. */
  lemma {:induction false} FreezeExactly(b: Batch, version: nat, actor: string, revision: nat, token: nat, key: string, auto: bool,
                                         policyVersion: nat, digest: string, roles: seq<string>, assignees: map<string, set<string>>, now: int)
    ensures var r := Freeze(b, version, actor, revision, token, key, auto, policyVersion, digest, roles, assignees, now);
            && (r.Ok? <==> && Live(b, actor, revision, token, now) && b.version == version && b.confirmation == None && roles != []
                           && (forall i :: 0 <= i < |b.items| ==> b.items[i].mode != NormalMode && b.items[i].digest != "")
                           && (auto || forall r :: r in roles ==> r in assignees && assignees[r] != {}))
            && (r.Ok? ==>
                  && r.value == b.(confirmation := r.value.confirmation, state := Queued, operation := true, committedRevision := revision,
                                   commitKey := key, epoch := b.epoch + 1)
                  && r.value.confirmation.Some?
                  && var c := r.value.confirmation.value;
                     && c.revision == revision && c.digest == digest && c.roles == roles && c.policyVersion == policyVersion
                     && c.commands == [] && c.expiresAt == now + 259200
                     && (auto ==> c.decision == Auto && c.state == Approved && c.approvedRoles == roles && c.assignees == map[])
                     && (!auto ==> c.decision == Manual && c.state == Starting && c.approvedRoles == []
                                   && c.assignees.Keys == (set r | r in roles) && forall r :: r in roles ==> c.assignees[r] == assignees[r]))
  {
  }

  /** A command is recorded once, while it may still count; withdrawing an AUTO approval ends it at once, if nothing is confirmed. */
  lemma {:induction false} ActExactly(b: Batch, version: nat, actor: string, key: string, action: Action, roles: seq<string>, now: int)
    requires b.confirmation.Some? && forall k :: 0 <= k < |b.confirmation.value.commands| ==> b.confirmation.value.commands[k].key != key
    ensures var c, r := b.confirmation.value, Act(b, version, actor, key, action, roles, now);
            var auto := action == Withdraw && c.decision == Auto && c.state == Approved;
            && (r.Ok? <==> && b.version == version && |c.commands| < COMMAND_LIMIT && (action == Withdraw ==> actor == b.actor)
                           && (if auto then b.state != Completed && forall i :: 0 <= i < |b.items| ==> !b.items[i].confirmed
                               else c.expiresAt > now && (c.state == PendingApproval || (action == Withdraw && c.state == Starting))))
            && (r.Ok? ==> r.value.confirmation.Some? && r.value.confirmation.value.commands == c.commands + [Command(key, actor, action, roles)])
            && (r.Ok? && !auto ==> r.value == b.(confirmation := Some(c.(commands := c.commands + [Command(key, actor, action, roles)]))))
            && (r.Ok? && auto ==> r.value.confirmation.value.state == Withdrawn && r.value.state == Paused && r.value.epoch == b.epoch + 1
                                  && r.value.leaseUntil == 0 && r.value.items == b.items)
  {
    NoCommandFound(b.confirmation.value.commands, key, 0);
    hide FindCommand;
  }

  /** The same command again changes nothing; its key under another actor or action is refused. */
  lemma {:induction false} ActTwice(b: Batch, version: nat, actor: string, key: string, action: Action, roles: seq<string>, now: int, k: nat)
    requires b.confirmation.Some? && k < |b.confirmation.value.commands| && b.confirmation.value.commands[k].key == key
    requires forall j :: 0 <= j < k ==> b.confirmation.value.commands[j].key != key
    ensures var r, command := Act(b, version, actor, key, action, roles, now), b.confirmation.value.commands[k];
            && (r.Ok? ==> r.value == b && command.actor == actor && command.action == action)
            && (command.actor == actor && command.action == action && (action == Withdraw ==> actor == b.actor) ==> r.Ok?)
  {
    CommandFound(b.confirmation.value.commands, key, 0, k);
    hide FindCommand;
  }

  lemma {:induction false} NoCommandFound(commands: seq<Command>, key: string, i: nat)
    requires i <= |commands| && forall k :: 0 <= k < |commands| ==> commands[k].key != key
    ensures FindCommand(commands, key, i) == |commands|
    decreases |commands| - i
  {
    if i < |commands| {
      NoCommandFound(commands, key, i + 1);
    }
  }

  lemma {:induction false} CommandFound(commands: seq<Command>, key: string, i: nat, k: nat)
    requires i <= k < |commands| && commands[k].key == key && forall j :: 0 <= j < k ==> commands[j].key != key
    ensures FindCommand(commands, key, i) == k
    decreases k - i
  {
    if i < k {
      CommandFound(commands, key, i + 1, k);
    }
  }

  /** Pausing stops execution and keeps every item; resuming, for the creator of an unchanged revision, makes what is not settled ready again. */
  lemma {:induction false} ControlExactly(b: Batch, version: nat, resume: bool, actor: string)
    ensures var r := Control(b, version, resume, actor);
            && (r.Ok? <==> && b.version == version && b.operation && b.state != Completed
                           && (b.confirmation.Some? ==> b.confirmation.value.state == Starting
                                                        || (b.confirmation.value.state == Approved && b.confirmation.value.decision == Auto))
                           && (resume ==> actor == b.actor && b.committedRevision == b.revision
                                          && forall i :: 0 <= i < |b.items| ==> b.items[i].state !in {CorrectionRequired, NeedsReview}))
            && (r.Ok? && !resume ==> r.value == b.(state := Paused, epoch := b.epoch + 1, leaseUntil := 0))
            && (r.Ok? && resume ==>
                  && r.value == b.(state := Queued, epoch := b.epoch + 1, leaseUntil := 0, items := r.value.items) && |r.value.items| == |b.items|
                  && forall i :: 0 <= i < |b.items| ==>
                       r.value.items[i] == if b.items[i].contract.Some? || Terminal(b.items[i]) then b.items[i]
                                           else b.items[i].(state := Ready, issues := []))
  {
    hide Terminal;
  }

  // ----- Executing -----

  /** Whom a new contract goes to: nobody else's record, and not under another digest. */
  predicate Fits(b: Batch, stores: Stores, item: Item, offered: nat) {
    if (b.source, item.record) in stores.identities then
      && stores.identities[(b.source, item.record)].digest == item.digest
      && (stores.identities[(b.source, item.record)].contract.Some? || offered !in stores.contracts)
    else offered !in stores.contracts
  }

  /**
    Under the current revision, epoch and lease, and not otherwise, an item gets a contract: it keeps the
    one it has, takes the one its record has, or else the one offered; it fails exactly when the record is
    registered under another digest or the id offered is taken.
   */
  lemma {:induction false} CreationExactly(b: Batch, stores: Stores, revision: nat, epoch: nat, i: nat, offered: nat, digest: string, now: int)
    requires ItemsApart(b.items) && i < |b.items|
    ensures var item, r := b.items[i], CommitDraft(b, stores, revision, epoch, b.items[i].id, offered, digest, now);
            var key := (b.source, item.record);
            && (r.Ok? <==> && b.revision == revision && b.epoch == epoch && b.state == Running && b.leaseUntil > now
                           && (item.contract.Some? || Fits(b, stores, item, offered)))
            && (r.Ok? && item.contract.Some? ==> r.value == Written(b, stores))
            && (r.Ok? && item.contract == None ==>
                  var c := if key in stores.identities && stores.identities[key].contract.Some? then stores.identities[key].contract.value else offered;
                  && r.value.batch == b.(version := b.version + 1, items := b.items[i := item.(contract := Some(c), state := Created, issues := [])])
                  && key in r.value.stores.identities && r.value.stores.identities[key].contract == Some(c)
                  && r.value.stores.contracts == (if key in stores.identities && stores.identities[key].contract.Some? then stores.contracts
                                                  else stores.contracts[offered := Contract(item.id, digest, 1)])
                  && r.value.stores.identities.Keys == stores.identities.Keys + {key})
  {
    IdFound(b.items, i);
    hide ItemsApart;
  }

  /** An unknown item gets nothing. */
  lemma {:induction false} UnknownItem(b: Batch, stores: Stores, revision: nat, epoch: nat, id: nat, offered: nat, digest: string, now: int)
    requires forall i :: 0 <= i < |b.items| ==> b.items[i].id != id
    ensures CommitDraft(b, stores, revision, epoch, id, offered, digest, now).Err? && MarkComplete(b, epoch, id).Err?
  {
    assert Find(b.items, ById(id), 0) == |b.items|;
  }

  /** An item is completed exactly in the running epoch. */
  lemma {:induction false} CompletionExactly(b: Batch, epoch: nat, i: nat)
    requires ItemsApart(b.items) && i < |b.items|
    ensures MarkComplete(b, epoch, b.items[i].id).Ok? <==> b.epoch == epoch && b.state == Running
    ensures MarkComplete(b, epoch, b.items[i].id).Ok? ==>
              MarkComplete(b, epoch, b.items[i].id).value == b.(items := b.items[i := b.items[i].(state := Complete, issues := [])])
  {
    IdFound(b.items, i);
    hide ItemsApart;
  }

  // ----- Confirming by itself -----

  /** The policy a worker goes by: a pinned one alone; else the switch, which may only upgrade a confirmation nobody pinned. */
  lemma {:induction false} PolicyExactly(confirmation: Option<Confirmation>, live: bool, version: nat)
    ensures var p := PolicyOf(confirmation, live, version);
            && (p.auto <==> if confirmation.Some? && confirmation.value.decision != Unpinned then confirmation.value.decision == Auto else live)
            && p.version == (if confirmation.Some? && confirmation.value.decision != Unpinned then confirmation.value.policyVersion else version)
            && (p.upgrade <==> confirmation.Some? && confirmation.value.decision == Unpinned && live)
  {
  }

  /** An old confirmation nobody has acted on yet, still alive if it has not lapsed. */
  predicate Untouched(c: Confirmation, now: int) {
    && c.decision == Unpinned && c.commands == [] && c.approvedRoles == [] && c.state in {Starting, Lapsed}
    && (c.state == Starting ==> c.expiresAt > now)
  }

  /** The confirmation lets an item through: none yet, an approved one, or an untouched one that may be upgraded. */
  predicate LetsThrough(confirmation: Option<Confirmation>, policy: Policy, now: int) {
    || confirmation == None || confirmation.value.state == Approved
    || (policy.upgrade && Untouched(confirmation.value, now))
  }

  /** What stands of the contract: of this item, in its first version. */
  predicate FirstVersion(stores: Stores, item: Item) {
    && item.contract.Some? && item.contract.value in stores.contracts
    && stores.contracts[item.contract.value].version == 1 && stores.contracts[item.contract.value].origin == item.id
  }

  /**
    An item is confirmed by itself exactly when it is a finished or archived record with its evidence in
    order and its contract in the first version, and the confirmation lets it through; then the
    confirmation is an approved one, AUTO if it was made or upgraded here.
   */
  lemma {:induction false} AutoConfirmExactly(b: Batch, stores: Stores, i: nat, policy: Policy, roles: seq<string>, digest: string, ready: set<nat>, now: int)
    requires ItemsApart(b.items) && i < |b.items| && !b.items[i].confirmed
    ensures var item, r := b.items[i], AutoConfirm(b, stores, b.items[i].id, policy, roles, digest, ready, now);
            && (r.Ok? <==> && item.mode in {ArchiveOnly, HistoricalClosed} && item.id in ready && item.sourceRevision != 0
                           && FirstVersion(stores, item) && LetsThrough(b.confirmation, policy, now))
            && (r.Ok? ==>
                  && r.value.batch == b.(version := b.version + 1, items := b.items[i := item.(confirmed := true)], confirmation := r.value.batch.confirmation)
                  && r.value.stores == stores.(contracts := stores.contracts[item.contract.value := stores.contracts[item.contract.value].(version := 2)])
                  && r.value.batch.confirmation.Some? && r.value.batch.confirmation.value.state == Approved
                  && (b.confirmation == None ==>
                        r.value.batch.confirmation.value
                        == Confirmation(Approved, Auto, policy.version, b.revision, digest, roles, roles, map[], [], now + 86400))
                  && (b.confirmation.Some? && b.confirmation.value.state == Approved ==> r.value.batch.confirmation == b.confirmation)
                  && (b.confirmation.Some? && b.confirmation.value.state != Approved ==>
                        r.value.batch.confirmation.value
                        == b.confirmation.value.(decision := Auto, policyVersion := policy.version, approvedRoles := b.confirmation.value.roles, state := Approved)))
  {
    IdFound(b.items, i);
    hide ItemsApart;
  }

  /** A round is refused unless it is about the confirmation and the contents as submitted; an ended confirmation it leaves alone. */
  lemma {:induction false} RoundRefused(b: Batch, stores: Stores, revision: nat, digest: string, ready: set<nat>, now: int)
    ensures b.confirmation == None || b.confirmation.value.digest != digest || b.confirmation.value.revision != revision || b.revision != revision ==>
              AdvanceConfirmation(b, stores, revision, digest, ready, now).Err?
    ensures b.confirmation.Some? && b.confirmation.value.state in {Approved, Rejected, Withdrawn, Lapsed}
            && b.confirmation.value.digest == digest && b.confirmation.value.revision == b.revision == revision ==>
              AdvanceConfirmation(b, stores, revision, digest, ready, now) == Ok(Written(b, stores))
  {
    hide Tally, ConfirmItems, WithdrawnByCreator;
  }

  /** A claim takes a queued batch, or one whose lease has run out, for two minutes in a new epoch. */
  lemma {:induction false} ClaimExactly(b: Batch, now: int)
    ensures Claim(b, now).Ok? <==> b.state in {Queued, Running} && (b.leaseUntil == 0 || b.leaseUntil < now)
    ensures Claim(b, now).Ok? ==> Claim(b, now).value == b.(state := Running, epoch := b.epoch + 1, leaseUntil := now + 120)
  {
  }

  /** How a dispatch leaves the batch: partial with its item blocked when it failed, settled when everything is complete, else queued again. */
  lemma {:induction false} FinishExactly(b: Batch, index: nat, ending: Ending)
    requires Executing(b, b.epoch)
    ensures var r := Finish(b, b.epoch, index, ending);
            && r.Ok? && r.value.leaseUntil == 0 && r.value.epoch == b.epoch && r.value.confirmation == b.confirmation
            && (ending.FailedWith? ==>
                  && r.value.state == Partial
                  && r.value.items == if index < |b.items| then
                                        b.items[index := b.items[index].(issues := [ending.code], state := if ending.review then NeedsReview else BlockedItem)]
                                      else b.items)
            && (ending.Done? ==>
                  && r.value.items == b.items
                  && r.value.state == if exists i :: 0 <= i < |b.items| && b.items[i].state != Complete then (if index < |b.items| then Queued else Partial)
                                      else if b.confirmation == None then Completed
                                      else if b.confirmation.value.state == Approved then TargetsPending else ConfirmationPending)
  {
  }

  /** Dispatches pass over items sent for correction or review, and over those blocked for one of three codes; not over others. */
  lemma {:induction false} PassedOver(item: Item, code: string)
    ensures Terminal(item.(state := CorrectionRequired)) && Terminal(item.(state := NeedsReview))
    ensures Terminal(item.(state := BlockedItem, issues := [code]))
            <==> code in {"IMPORT_SOURCE_ID_CONFLICT", "IMPORT_CORRECTION_REQUIRED", "IMPORT_NEEDS_REVIEW"}
    ensures item.state in {PendingItem, Ready, NeedsProvision, Created, Complete} ==> !Terminal(item)
  {
    assert item.(state := BlockedItem, issues := [code]).issues[0] == code;
  }

  /** Cleaning expires a batch that was never committed, once its time is up; a completed one it leaves as it is. */
  lemma {:induction false} CleanExactly(b: Batch, now: int)
    ensures Clean(b, now).Ok? <==> b.expiresAt <= now && (!b.operation || b.state == Completed)
    ensures Clean(b, now).Ok? ==>
              Clean(b, now).value == if b.operation then b else b.(state := Expired, epoch := b.epoch + 1, token := 0)
  {
  }

  // ----- Only what was previewed is executed -----

  /** An executing batch runs the revision committed; a previewed one has nothing blocked. */
  predicate CommitOk(b: Batch) {
    && (b.state in {Queued, Running} ==> b.operation && b.committedRevision == b.revision) && (b.operation ==> b.items != [])
    && (b.state == ImportBatch.Previewed ==> b.items != [] && forall i :: 0 <= i < |b.items| ==>
          b.items[i].contract.Some? || b.items[i].state in {Ready, NeedsProvision})
  }

  lemma {:induction false} ChangeCommitted(b: Batch, change: ImportBatch.Change)
    requires CommitOk(b) && Apply(b, change).Ok?
    ensures CommitOk(Apply(b, change).value)
  {
    hide FirstStop, FindDropped, Renewed, Found, Terminal, AllGood, Control, Freeze, Commit, Clean, TargetsMove, Resumable;
    match change
    case PreviewOf(version, revision, findings, mixed, token, now) =>
      PreviewExactly(b, version, revision, findings, mixed, token, now);
    case SetManifestOf(version, source, lines, now) =>
      ManifestDraft(b, version, source, lines, now);
      hide SetManifest, Preview;
    case AddSourceTo(version, key, known, now) =>
      EditableExactly(b, version, now);
      hide Editable;
    case ActBy(version, actor, key, action, roles, now) =>
      hide FindCommand;
    case _ =>
      OtherCommitted(b, change);
  }

  lemma {:induction false} OtherCommitted(b: Batch, change: ImportBatch.Change)
    requires CommitOk(b) && Apply(b, change).Ok? && (change.CommitBy? || change.ControlBy? || change.FreezeBy? || change.CleanAt? || change.MoveByTargets?)
    ensures CommitOk(Apply(b, change).value)
  {
    hide Terminal, Resumable, Editable;
  }

  lemma {:induction false} ManifestDraft(b: Batch, version: nat, source: string, lines: seq<Line>, now: int)
    requires SetManifest(b, version, source, lines, now).Ok?
    ensures SetManifest(b, version, source, lines, now).value.state in {Draft, Partial}
  {
    hide FirstStop, FindDropped, Renewed, Editable;
  }

  /** A batch starts to execute only by a commit or a submission of what is previewed, or by resuming what was committed. */
  lemma {:induction false} QueuedOnlyFrom(b: Batch, change: ImportBatch.Change)
    requires Apply(b, change).Ok? && b.state !in {Queued, Running} && Apply(b, change).value.state in {Queued, Running}
    ensures || (change.CommitBy? && Live(b, change.actor, change.revision, change.token, change.now)
                && forall i :: 0 <= i < |b.items| ==> b.items[i].mode == NormalMode)
            || (change.FreezeBy? && Live(b, change.actor, change.revision, change.token, change.now)
                && forall i :: 0 <= i < |b.items| ==> b.items[i].mode != NormalMode)
            || (change.ControlBy? && change.resume && change.actor == b.actor && b.operation && b.committedRevision == b.revision)
  {
    if change.SetManifestOf? {
      ManifestDraft(b, change.version, change.source, change.lines, change.now);
    }
    hide FirstStop, FindDropped, Renewed, Found, Terminal, AllGood, SetManifest;
  }

  /** What executing and confirming may do to a batch: it stays as committed, and starts nothing. */
  predicate Steady(b: Batch, next: Batch) {
    && next.revision == b.revision && next.operation == b.operation && next.committedRevision == b.committedRevision
    && (next.items == [] <==> b.items == [])
    && (next.state in {Queued, Running} ==> b.state in {Queued, Running})
    && (next.state == ImportBatch.Previewed ==>
          && b.state == ImportBatch.Previewed && |next.items| == |b.items|
          && forall i :: 0 <= i < |b.items| ==> next.items[i].state == b.items[i].state && next.items[i].contract == b.items[i].contract)
  }

  lemma {:induction false} SteadyKeeps(b: Batch, next: Batch)
    requires CommitOk(b) && Steady(b, next)
    ensures CommitOk(next)
  {
  }

  lemma {:induction false} ExecutionSteady(b: Batch, stores: Stores, revision: nat, epoch: nat, id: nat, offered: nat, digest: string,
                                           index: nat, ending: Ending, now: int)
    ensures forall r :: r in {Claim(b, now), MarkComplete(b, epoch, id), Finish(b, epoch, index, ending)} && r.Ok? ==> Steady(b, r.value)
    ensures var r := CommitDraft(b, stores, revision, epoch, id, offered, digest, now); r.Ok? ==> Steady(b, r.value.batch)
  {
  }

  lemma {:induction false} AutoSteady(b: Batch, stores: Stores, id: nat, policy: Policy, roles: seq<string>, digest: string, ready: set<nat>, now: int)
    requires AutoConfirm(b, stores, id, policy, roles, digest, ready, now).Ok?
    ensures Steady(b, AutoConfirm(b, stores, id, policy, roles, digest, ready, now).value.batch)
  {
    hide Confirmable, AutoConfirmation;
  }

  lemma {:induction false} ItemsSteady(b: Batch, stores: Stores, n: nat, ready: set<nat>)
    requires n <= |b.items| && ConfirmItems(b, stores, n, ready).Ok?
    ensures Steady(b, ConfirmItems(b, stores, n, ready).value.batch)
    ensures ConfirmItems(b, stores, n, ready).value.batch.state == b.state
  {
    if n > 0 {
      ItemsSteady(b, stores, n - 1, ready);
      hide Confirmable;
    }
  }

  lemma {:induction false} RoundSteady(b: Batch, stores: Stores, revision: nat, digest: string, ready: set<nat>, now: int)
    requires AdvanceConfirmation(b, stores, revision, digest, ready, now).Ok?
    ensures Steady(b, AdvanceConfirmation(b, stores, revision, digest, ready, now).value.batch)
  {
    if ConfirmItems(b, stores, |b.items|, ready).Ok? {
      ItemsSteady(b, stores, |b.items|, ready);
    }
    hide Tally, WithdrawnByCreator, ConfirmItems;
  }

  predicate AllCommitted(s: World) {
    forall id :: id in s.batches ==> CommitOk(s.batches[id])
  }

  lemma {:induction false} NextCommitted(s: World, m: Move)
    requires AllCommitted(s)
    ensures AllCommitted(Next(s, m))
  {
    hide Apply, CommitDraft, AdvanceConfirmation, AutoConfirm, PolicyOf, Claim, MarkComplete, Finish, Usable, CommitOk, Steady;
    var worker := if m.NewBatch? || m.Change? || m.AdvanceRound? then Idle else WorkerOf(s, m.w);
    match m
    case NewBatch(_, source, actor, expiresAt) => EmptyCommitted(source, actor, expiresAt);
    case Change(id, change) =>
      if id in s.batches && Apply(s.batches[id], change).Ok? {
        ChangeCommitted(s.batches[id], change);
      }
    case ClaimBatch(_, id, now) =>
      if id in s.batches {
        ExecutionSteady(s.batches[id], s.stores, 0, 0, 0, 0, "", 0, Done, now);
        SavedKeeps(s.batches[id], Claim(s.batches[id], now));
      }
    case CreateContract(w, index, offered, now) =>
      if worker.Holding? && worker.batch in s.batches && index < |worker.snapshot.items| {
        var b, item := s.batches[worker.batch], worker.snapshot.items[index];
        ExecutionSteady(b, s.stores, worker.snapshot.revision, worker.snapshot.epoch, item.id, offered, item.digest, 0, Done, now);
        var r := CommitDraft(b, s.stores, worker.snapshot.revision, worker.snapshot.epoch, item.id, offered, item.digest, now);
        if r.Ok? {
          SteadyKeeps(b, r.value.batch);
        }
      }
    case ConfirmByItself(w, index, live, liveVersion, roles, digest, ready, now) =>
      if worker.Holding? && worker.batch in s.batches && index < |worker.snapshot.items| {
        var b, policy := s.batches[worker.batch], PolicyOf(worker.snapshot.confirmation, live, liveVersion);
        var r := AutoConfirm(b, s.stores, worker.snapshot.items[index].id, policy, roles, digest, ready, now);
        if r.Ok? {
          AutoSteady(b, s.stores, worker.snapshot.items[index].id, policy, roles, digest, ready, now);
          SteadyKeeps(b, r.value.batch);
        }
      }
    case CompleteItem(w, index) =>
      if worker.Holding? && worker.batch in s.batches && index < |worker.snapshot.items| {
        var b := s.batches[worker.batch];
        ExecutionSteady(b, s.stores, 0, worker.snapshot.epoch, worker.snapshot.items[index].id, 0, "", 0, Done, 0);
        SavedKeeps(b, MarkComplete(b, worker.snapshot.epoch, worker.snapshot.items[index].id));
      }
    case EndDispatch(w, index, ending) =>
      if worker.Holding? && worker.batch in s.batches {
        var b := s.batches[worker.batch];
        ExecutionSteady(b, s.stores, 0, worker.snapshot.epoch, 0, 0, "", index, ending, 0);
        SavedKeeps(b, Finish(b, worker.snapshot.epoch, index, ending));
      }
    case Crash(_) =>
    case AdvanceRound(id, revision, digest, ready, now) =>
      if id in s.batches {
        var r := AdvanceConfirmation(s.batches[id], s.stores, revision, digest, ready, now);
        if r.Ok? {
          RoundSteady(s.batches[id], s.stores, revision, digest, ready, now);
          SteadyKeeps(s.batches[id], r.value.batch);
        }
      }
  }

  lemma {:induction false} EmptyCommitted(source: string, actor: string, expiresAt: int)
    ensures CommitOk(EmptyBatch(source, actor, expiresAt))
  {
  }

  lemma {:induction false} SavedKeeps(b: Batch, r: Outcome)
    requires CommitOk(b) && (r.Ok? ==> Steady(b, r.value))
    ensures Save(r).Ok? ==> CommitOk(Save(r).value)
  {
  }

  lemma {:induction false} RunCommitted(s: World, moves: seq<Move>)
    requires AllCommitted(s)
    ensures AllCommitted(Run(s, moves))
    decreases |moves|
  {
    hide Next, AllCommitted;
    if moves != [] {
      NextCommitted(s, moves[0]);
      RunCommitted(Next(s, moves[0]), moves[1..]);
    }
  }

  /** In every reachable state, what executes is the revision that was committed, and what is previewed has nothing blocked. */
  lemma {:induction false} ExecutedWasCommitted(moves: seq<Move>, id: string)
    requires id in Run(Start(), moves).batches
    ensures var b := Run(Start(), moves).batches[id];
            && (b.state in {Queued, Running} ==> b.operation && b.committedRevision == b.revision && b.items != [])
            && (b.state == ImportBatch.Previewed ==> b.items != [] && forall i :: 0 <= i < |b.items| ==>
                  b.items[i].contract.Some? || b.items[i].state in {Ready, NeedsProvision})
  {
    RunCommitted(Start(), moves);
    hide Run;
    assert CommitOk(Run(Start(), moves).batches[id]);
  }
}

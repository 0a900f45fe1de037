/**
  The import operations as they work on the stored batch: read it under the lock, change the copy
  step by step, and save it unless the operation is refused.
 */
module ImportStore {
  import opened Wrappers
  import opened ImportBatch
  import opened ImportLedger

  /** One batch and the identities and contracts it shares with all others, as they are stored. */
  class BatchStore {
    var batch: Batch
    var stores: Stores

    constructor (batch: Batch, stores: Stores)
      ensures this.batch == batch && this.stores == stores
    {
      this.batch, this.stores := batch, stores;
    }

    method EditableImport(version: nat, now: int) returns (r: Outcome)
      ensures r == Editable(batch, version, now)
    {
      var b := batch;
      if b.version != version || b.expiresAt <= now {
        return Err(Conflict);
      }
      if b.confirmation.Some? {
        var c := b.confirmation.value;
        if c.state != Withdrawn && c.state != Rejected && c.state != Lapsed {
          return Err(Conflict);
        }
        b := b.(past := b.past + [c]);
        b := b.(confirmation := None);
        b := b.(operation := false, commitKey := "");
        b := b.(committedRevision := 0);
        b := b.(state := Draft);
        b := b.(epoch := b.epoch + 1);
      }
      if b.state == Queued || b.state == Running || b.state == Completed || b.state == Expired {
        return Err(Conflict);
      }
      return Ok(b);
    }

    method UploadImportSource(version: nat, key: string, known: bool, now: int) returns (error: Option<ImportError>)
      modifies this`batch
      ensures match Save(AddSource(old(batch), version, key, known, now))
              case Ok(b) => error == None && batch == b
              case Err(e) => error == Some(e) && batch == old(batch)
    {
      hide Editable;
      var r := EditableImport(version, now);
      if r.Err? {
        return Some(r.error);
      }
      var b := r.value;
      for i := 0 to |b.items|
        invariant batch == old(batch)
        invariant forall k :: 0 <= k < i ==> !(b.items[k].key == key && b.items[k].contract.Some?)
      {
        if b.items[i].key == key && b.items[i].contract.Some? {
          return Some(CorrectionError);
        }
      }
      if !known {
        b := b.(revision := b.revision + 1);
        b := b.(token := 0, state := Draft);
        b := b.(epoch := b.epoch + 1);
      }
      batch := b.(version := b.version + 1);
      return None;
    }

    /** The position of the item with a key. */
    method Lookup(items: seq<Item>, key: string) returns (j: nat)
      ensures j == Find(items, ByKey(key), 0)
    {
      for i := 0 to |items|
        invariant forall k :: 0 <= k < i ==> items[k].key != key
        invariant Find(items, ByKey(key), 0) == Find(items, ByKey(key), i)
      {
        if items[i].key == key {
          return i;
        }
      }
      return |items|;
    }

    method CheckManifest(lines: seq<Line>) returns (ok: bool)
      ensures ok == ValidManifest(lines)
    {
      if |lines| == 0 {
        return false;
      }
      var keys: set<string>, records: set<string> := {}, {};
      for i := 0 to |lines|
        invariant forall k :: k in keys <==> exists j :: 0 <= j < i && lines[j].key == k
        invariant forall k :: k in records <==> exists j :: 0 <= j < i && lines[j].record == k
        invariant forall j, k :: 0 <= j < k < i ==> lines[j].key != lines[k].key && lines[j].record != lines[k].record
      {
        if lines[i].key in keys || lines[i].record in records {
          return false;
        }
        keys, records := keys + {lines[i].key}, records + {lines[i].record};
      }
      return true;
    }

    /** The first line that stops the manifest, and the items of the lines before it. */
    method ReadLines(b: Batch, lines: seq<Line>) returns (stop: nat, items: seq<Item>)
      ensures stop == FirstStop(b.items, lines, 0)
      ensures |items| == stop && forall k :: 0 <= k < stop ==> items[k] == Renewed(b, lines[k])
    {
      items := [];
      for i := 0 to |lines|
        invariant FirstStop(b.items, lines, 0) == FirstStop(b.items, lines, i)
        invariant |items| == i && forall k :: 0 <= k < i ==> items[k] == Renewed(b, lines[k])
      {
        var at := Lookup(b.items, lines[i].key);
        if !lines[i].staged {
          return i, items;
        }
        if at < |b.items| && b.items[at].contract.Some? {
          if !SameLine(b.items[at], lines[i]) {
            return i, items;
          }
          items := items + [b.items[at]];
        } else {
          var id := if at < |b.items| then b.items[at].id else lines[i].newId;
          items := items + [Item(id, lines[i].key, lines[i].record, lines[i].content, lines[i].mode, b.revision + 1, "", PendingItem, [], None, false)];
        }
      }
      return |lines|, items;
    }

    /** An item with a contract that has no line. */
    method FirstDropped(items: seq<Item>, lines: seq<Line>) returns (j: nat)
      ensures j == FindDropped(items, lines, 0)
    {
      for i := 0 to |items|
        invariant FindDropped(items, lines, 0) == FindDropped(items, lines, i)
      {
        var listed := false;
        for k := 0 to |lines|
          invariant listed <==> exists l :: 0 <= l < k && lines[l].key == items[i].key
        {
          listed := listed || lines[k].key == items[i].key;
        }
        if items[i].contract.Some? && !listed {
          return i;
        }
      }
      return |items|;
    }

    method MarkImportCorrection(b: Batch, i: nat) returns (r: Batch)
      requires i < |b.items|
      ensures r == Corrected(b, i)
    {
      r := b.(state := Partial);
      r := r.(epoch := r.epoch + 1);
      r := r.(token := 0);
      r := r.(items := r.items[i := r.items[i].(state := CorrectionRequired, issues := ["IMPORT_CORRECTION_REQUIRED"])]);
    }

    /** A batch left partial is saved, and a correction asked for. */
    method SetImportManifest(version: nat, source: string, lines: seq<Line>, now: int) returns (error: Option<ImportError>)
      modifies this`batch
      ensures match Save(SetManifest(old(batch), version, source, lines, now))
              case Ok(b) => error == (if b.state == Partial then Some(CorrectionError) else None) && batch == b
              case Err(e) => error == Some(e) && batch == old(batch)
    {
      hide Editable, ValidManifest, FirstStop, FindDropped, Renewed;
      var valid := CheckManifest(lines);
      if !valid {
        return Some(Validation);
      }
      var r := EditableImport(version, now);
      if r.Err? {
        return Some(r.error);
      }
      var b := r.value;
      if source != b.source {
        return Some(Validation);
      }
      var correctionRequired := false;
      var stop, items := ReadLines(b, lines);
      if stop < |lines| {
        if !lines[stop].staged {
          return Some(Validation);
        }
        var at := Lookup(b.items, lines[stop].key);
        StopsAt(b.items, lines);
        b := MarkImportCorrection(b, at);
        correctionRequired := true;
      } else {
        var dropped := FirstDropped(b.items, lines);
        if dropped < |b.items| {
          b := MarkImportCorrection(b, dropped);
          correctionRequired := true;
        } else {
          assert items == seq(|lines|, i requires 0 <= i < |lines| => Renewed(b, lines[i]));
          b := b.(items := items);
          b := b.(epoch := b.epoch + 1, revision := b.revision + 1);
          b := b.(token := 0, state := Draft);
        }
      }
      batch := b.(version := b.version + 1);
      return if correctionRequired then Some(CorrectionError) else None;
    }

    method PreviewImport(version: nat, revision: nat, findings: seq<Finding>, mixed: bool, token: nat, now: int) returns (error: Option<ImportError>)
      modifies this`batch
      ensures match Save(Preview(old(batch), version, revision, findings, mixed, token, now))
              case Ok(b) => error == None && batch == b
              case Err(e) => error == Some(e) && batch == old(batch)
    {
      hide Editable;
      var b := batch;
      if b.revision != revision || |b.items| == 0 || b.state == Queued || b.state == Running || b.state == Completed || |findings| != |b.items| {
        return Some(Conflict);
      }
      var ready := !mixed;
      var items: seq<Item> := [];
      for i := 0 to |b.items|
        invariant batch == old(batch)
        invariant |items| == i && forall k :: 0 <= k < i ==> items[k] == Found(b.items[k], findings[k])
        invariant ready <==> !mixed && forall k :: 0 <= k < i ==> b.items[k].contract.Some? || findings[k].Good?
      {
        var item := b.items[i];
        if item.contract.None? {
          match findings[i]
          case Good(digest, provision) =>
            item := item.(state := if provision then NeedsProvision else Ready, issues := [], digest := digest);
          case Bad(codes) =>
            ready := false;
            item := item.(state := BlockedItem, issues := codes);
        }
        items := items + [item];
      }
      var r := EditableImport(version, now);
      if r.Err? {
        return Some(r.error);
      }
      assert items == seq(|b.items|, i requires 0 <= i < |b.items| => Found(b.items[i], findings[i]));
      var open := r.value;
      open := open.(items := items, state := if ready then Previewed else BlockedBatch);
      open := open.(token := token, tokenExpires := now + TOKEN_LIFETIME);
      batch := open.(version := open.version + 1);
      return None;
    }

    method CommitImport(actor: string, revision: nat, token: nat, key: string, now: int) returns (error: Option<ImportError>)
      modifies this`batch
      ensures match Save(Commit(old(batch), actor, revision, token, key, now))
              case Ok(b) => error == None && batch == b
              case Err(e) => error == Some(e) && batch == old(batch)
    {
      var b := batch;
      if actor != b.actor {
        return Some(Forbidden);
      }
      if b.operation && b.committedRevision == revision {
        if b.revision != revision || b.commitKey != key {
          return Some(Conflict);
        }
        batch := b.(version := b.version + 1);
        return None;
      }
      if b.revision != revision || b.token != token || token == 0 || b.state != Previewed || b.tokenExpires <= now || b.expiresAt <= now {
        return Some(Conflict);
      }
      for i := 0 to |b.items|
        invariant batch == old(batch) && forall k :: 0 <= k < i ==> b.items[k].mode == NormalMode
      {
        if b.items[i].mode != NormalMode {
          return Some(Unsupported);
        }
      }
      b := b.(commitKey := key, operation := true);
      b := b.(committedRevision := b.revision, epoch := b.epoch + 1);
      b := b.(state := Queued);
      batch := b.(version := b.version + 1);
      return None;
    }

    method ControlImport(version: nat, resume: bool, actor: string) returns (error: Option<ImportError>)
      modifies this`batch
      ensures match Save(Control(old(batch), version, resume, actor))
              case Ok(b) => error == None && batch == b
              case Err(e) => error == Some(e) && batch == old(batch)
    {
      hide Terminal;
      var b := batch;
      if b.confirmation.Some? && !Resumable(b.confirmation.value) {
        return Some(Conflict);
      }
      if b.version != version || !b.operation || b.state == Completed {
        return Some(Conflict);
      }
      b := b.(epoch := b.epoch + 1, leaseUntil := 0);
      if !resume {
        b := b.(state := Paused);
        batch := b.(version := b.version + 1);
        return None;
      }
      for i := 0 to |b.items|
        invariant batch == old(batch)
        invariant forall k :: 0 <= k < i ==> b.items[k].state !in {CorrectionRequired, NeedsReview}
      {
        if b.items[i].state == CorrectionRequired || b.items[i].state == NeedsReview {
          return Some(NeedsReviewError);
        }
      }
      if b.committedRevision != b.revision {
        return Some(Conflict);
      }
      if actor != b.actor {
        return Some(Forbidden);
      }
      b := b.(state := Queued);
      for i := 0 to |b.items|
        invariant batch == old(batch) && b == old(batch).(epoch := old(batch).epoch + 1, leaseUntil := 0, state := Queued, items := b.items)
        invariant |b.items| == |old(batch).items|
        invariant forall k :: 0 <= k < |b.items| ==> b.items[k] == if k < i then Rearmed(old(batch).items[k]) else old(batch).items[k]
      {
        if b.items[i].contract.Some? || Terminal(b.items[i]) {
          continue;
        }
        b := b.(items := b.items[i := b.items[i].(issues := [], state := Ready)]);
      }
      ghost var items := old(batch).items;
      assert b.items == seq(|items|, i requires 0 <= i < |items| => Rearmed(items[i]));
      batch := b.(version := b.version + 1);
      return None;
    }

    method ClaimImportBatch(now: int) returns (found: bool)
      modifies this`batch
      ensures found == Claimable(old(batch), now)
      ensures match Save(Claim(old(batch), now))
              case Ok(b) => batch == b
              case Err(_) => batch == old(batch)
    {
      var b := batch;
      if (b.state != Queued && b.state != Running) || (b.leaseUntil != 0 && b.leaseUntil >= now) {
        return false;
      }
      b := b.(state := Running, epoch := b.epoch + 1);
      b := b.(leaseUntil := now + LEASE);
      batch := b.(version := b.version + 1);
      return true;
    }

    method CommitImportDraft(revision: nat, epoch: nat, id: nat, offered: nat, digest: string, now: int) returns (r: Result<nat, ImportError>)
      modifies this
      ensures match CommitDraft(old(batch), old(stores), revision, epoch, id, offered, digest, now)
              case Ok(w) => batch == w.batch && stores == w.stores && r.Ok?
                            && batch.items[Find(old(batch).items, ById(id), 0)].contract == Some(r.value)
              case Err(e) => r == Err(e) && batch == old(batch) && stores == old(stores)
    {
      var b := batch;
      if b.revision != revision || b.epoch != epoch || b.state != Running || b.leaseUntil <= now {
        return Err(Conflict);
      }
      for i := 0 to |b.items|
        invariant batch == old(batch) && stores == old(stores) && Find(b.items, ById(id), 0) == Find(b.items, ById(id), i)
      {
        if b.items[i].id == id {
          var item := b.items[i];
          if item.contract.Some? {
            return Ok(item.contract.value);
          }
          var key := (b.source, item.record);
          var identities := stores.identities;
          if key !in identities {
            identities := identities[key := Identity(item.digest, id, None)];
          }
          var identity := identities[key];
          if identity.digest != item.digest {
            return Err(IdentityConflict);
          }
          var c := offered;
          if identity.contract.Some? {
            c := identity.contract.value;
          } else {
            if offered in stores.contracts {
              return Err(Conflict);
            }
            stores := stores.(contracts := stores.contracts[offered := Contract(id, digest, 1)]);
          }
          identities := identities[key := identity.(contract := Some(c))];
          stores := stores.(identities := identities);
          b := b.(items := b.items[i := item.(contract := Some(c), state := Created, issues := [])]);
          batch := b.(version := b.version + 1);
          assert stores.identities == old(stores).identities[key := identity.(contract := Some(c))];
          return Ok(c);
        }
      }
      return Err(Conflict);
    }

    method MarkImportItemComplete(epoch: nat, id: nat) returns (error: Option<ImportError>)
      modifies this`batch
      ensures match Save(MarkComplete(old(batch), epoch, id))
              case Ok(b) => error == None && batch == b
              case Err(e) => error == Some(e) && batch == old(batch)
    {
      var b := batch;
      if b.epoch != epoch || b.state != Running {
        return Some(Conflict);
      }
      for i := 0 to |b.items|
        invariant batch == old(batch) && Find(b.items, ById(id), 0) == Find(b.items, ById(id), i)
      {
        if b.items[i].id == id {
          b := b.(items := b.items[i := b.items[i].(state := Complete, issues := [])]);
          batch := b.(version := b.version + 1);
          return None;
        }
      }
      return Some(Conflict);
    }

    /** The first item a dispatch works on. */
    method NextOpenItem(items: seq<Item>) returns (index: nat)
      ensures index == NextOpen(items, 0)
    {
      hide Terminal;
      for i := 0 to |items|
        invariant NextOpen(items, 0) == NextOpen(items, i)
      {
        if items[i].state == Complete || Terminal(items[i]) {
          continue;
        }
        return i;
      }
      return |items|;
    }

    method EndDispatch(epoch: nat, index: nat, ending: Ending) returns (error: Option<ImportError>)
      modifies this`batch
      ensures match Save(Finish(old(batch), epoch, index, ending))
              case Ok(b) => error == None && batch == b
              case Err(e) => error == Some(e) && batch == old(batch)
    {
      var b := batch;
      if b.epoch != epoch || b.state != Running {
        return Some(Conflict);
      }
      b := b.(leaseUntil := 0, state := Queued);
      if ending.FailedWith? {
        b := b.(state := Partial);
        if index < |b.items| {
          b := b.(items := b.items[index := b.items[index].(state := if ending.review then NeedsReview else BlockedItem, issues := [ending.code])]);
        }
        batch := b.(version := b.version + 1);
        return None;
      }
      var complete := true;
      for i := 0 to |b.items|
        invariant batch == old(batch) && (complete <==> forall k :: 0 <= k < i ==> b.items[k].state == Complete)
      {
        if b.items[i].state != Complete {
          complete := false;
        }
      }
      if complete {
        if b.confirmation.Some? && b.confirmation.value.state == Approved {
          b := b.(state := TargetsPending);
        } else if b.confirmation.Some? {
          b := b.(state := ConfirmationPending);
        } else {
          b := b.(state := Completed);
        }
      } else if index >= |b.items| {
        b := b.(state := Partial);
      }
      batch := b.(version := b.version + 1);
      return None;
    }

    /** Confirms the items in turn, all or none. */
    method ConfirmAll(ready: set<nat>) returns (r: LedgerOutcome)
      ensures r == ConfirmItems(batch, stores, |batch.items|, ready)
    {
      hide ConfirmItem;
      var w := Written(batch, stores);
      for i := 0 to |batch.items|
        invariant |w.batch.items| == |batch.items| && ConfirmItems(batch, stores, i, ready) == Ok(w)
      {
        var one := ConfirmOne(w.batch, w.stores, i, ready);
        assert ConfirmItems(batch, stores, i + 1, ready) == one;
        if one.Err? {
          FailsThroughout(batch, stores, i + 1, |batch.items|, ready);
          return one;
        }
        w := one.value;
      }
      return Ok(w);
    }

    method ConfirmOne(b: Batch, s: Stores, i: nat, ready: set<nat>) returns (r: LedgerOutcome)
      requires i < |b.items|
      ensures r == ConfirmItem(b, s, i, ready)
    {
      var item := b.items[i];
      if item.confirmed {
        return Ok(Written(b, s));
      }
      if item.sourceRevision == 0 || item.id !in ready || item.mode == NormalMode || item.contract.None? || item.contract.value !in s.contracts {
        return Err(BadManifest);
      }
      var c := s.contracts[item.contract.value];
      if c.version != 1 || c.origin != item.id {
        return Err(BadManifest);
      }
      return Ok(Written(b.(items := b.items[i := item.(confirmed := true)]),
                        s.(contracts := s.contracts[item.contract.value := c.(version := 2)])));
    }

    /** The roles approved and the state reached after the commands, in order. */
    method TallyCommands(c: Confirmation) returns (r: Confirmation)
      requires c.state == PendingApproval
      ensures r == Tally(c, |c.commands|)
    {
      hide Granted, Eligible;
      r := c;
      for i := 0 to |c.commands|
        invariant r == Tally(c, i)
      {
        if r.state == Rejected {
          continue;
        }
        var command := c.commands[i];
        var approved, eligible := GrantRoles(r, command);
        r := r.(approvedRoles := approved);
        if eligible && command.action == Reject {
          r := r.(state := Rejected);
        }
      }
    }

    method GrantRoles(c: Confirmation, command: Command) returns (approved: seq<string>, eligible: bool)
      ensures approved == Granted(c, command, |command.roles|) && eligible == Eligible(c, command)
    {
      approved, eligible := c.approvedRoles, false;
      for k := 0 to |command.roles|
        invariant approved == Granted(c, command, k)
        invariant eligible <==> exists j :: 0 <= j < k && command.roles[j] in c.assignees && command.actor in c.assignees[command.roles[j]]
      {
        var role := command.roles[k];
        if role in c.assignees && command.actor in c.assignees[role] {
          eligible := true;
          if command.action == Approve && role !in approved {
            approved := approved + [role];
          }
        }
      }
      if eligible {
        var j :| 0 <= j < |command.roles| && command.roles[j] in c.assignees && command.actor in c.assignees[command.roles[j]];
        assert command.roles[j] in command.roles;
      }
    }

    method AdvanceImportConfirmation(revision: nat, digest: string, ready: set<nat>, now: int) returns (error: Option<ImportError>)
      modifies this
      ensures match AdvanceConfirmation(old(batch), old(stores), revision, digest, ready, now)
              case Ok(w) => error == None && batch == w.batch && stores == w.stores
              case Err(e) => error == Some(e) && batch == old(batch) && stores == old(stores)
    {
      hide ConfirmItems, Tally;
      var b := batch;
      if b.confirmation.None? {
        return Some(BadManifest);
      }
      var c := b.confirmation.value;
      if c.digest != digest || c.revision != revision || b.revision != revision {
        return Some(BadManifest);
      }
      if c.state == Approved || c.state == Rejected || c.state == Withdrawn || c.state == Lapsed {
        return None;
      }
      if c.expiresAt <= now {
        b := b.(confirmation := Some(c.(state := Lapsed)));
        if b.state != Completed {
          b := b.(state := Paused, epoch := b.epoch + 1, leaseUntil := 0);
        }
        batch := b.(version := b.version + 1);
        return None;
      }
      for i := 0 to |c.commands|
        invariant batch == old(batch) && stores == old(stores)
        invariant forall k :: 0 <= k < i ==> !(c.commands[k].action == Withdraw && c.commands[k].actor == b.actor)
      {
        if c.commands[i].action == Withdraw && c.commands[i].actor == b.actor {
          b := b.(confirmation := Some(c.(state := Withdrawn)));
          b := b.(state := Paused, epoch := b.epoch + 1, leaseUntil := 0);
          batch := b.(version := b.version + 1);
          return None;
        }
      }
      for i := 0 to |b.items|
        invariant batch == old(batch) && stores == old(stores) && forall k :: 0 <= k < i ==> b.items[k].state == Complete
      {
        if b.items[i].state != Complete {
          return None;
        }
      }
      var tallied := TallyCommands(c.(state := PendingApproval));
      if tallied.state == PendingApproval && |c.roles| > 0 && |tallied.approvedRoles| == |c.roles| {
        var all := ConfirmAll(ready);
        if all.Err? {
          return Some(all.error);
        }
        b := all.value.batch.(confirmation := Some(tallied.(state := Approved)), state := TargetsPending);
        batch := b.(version := b.version + 1);
        stores := all.value.stores;
        return None;
      }
      if tallied.state == c.state && |tallied.approvedRoles| == |c.approvedRoles| {
        return None;
      }
      b := b.(confirmation := Some(tallied));
      batch := b.(version := b.version + 1);
      return None;
    }

    method AutoConfirmHistoricalImportItem(id: nat, policy: Policy, roles: seq<string>, digest: string, ready: set<nat>, now: int)
      returns (error: Option<ImportError>)
      modifies this
      ensures match AutoConfirm(old(batch), old(stores), id, policy, roles, digest, ready, now)
              case Ok(w) => error == None && batch == w.batch && stores == w.stores
              case Err(e) => error == Some(e) && batch == old(batch) && stores == old(stores)
    {
      hide ConfirmItem;
      var b := batch;
      var index := |b.items|;
      for i := 0 to |b.items|
        invariant batch == old(batch) && stores == old(stores) && index == |b.items| && Find(b.items, ById(id), 0) == Find(b.items, ById(id), i)
      {
        if b.items[i].id == id {
          index := i;
          break;
        }
      }
      if index == |b.items| {
        return Some(Conflict);
      }
      var item := b.items[index];
      if item.confirmed {
        return None;
      }
      if item.mode != ArchiveOnly && item.mode != HistoricalClosed {
        return Some(Unsupported);
      }
      if id !in ready || item.contract.None? {
        return Some(BadManifest);
      }
      var confirmation := b.confirmation;
      if confirmation.None? {
        confirmation := Some(Confirmation(Approved, Auto, policy.version, b.revision, digest, roles, roles, map[], [], now + 24 * 3600));
      } else {
        var c := confirmation.value;
        if c.decision == Unpinned && policy.upgrade && (c.state == Starting || c.state == Lapsed) && |c.commands| == 0
           && |c.approvedRoles| == 0 && (c.state != Starting || c.expiresAt > now) {
          c := c.(decision := Auto);
          c := c.(policyVersion := policy.version);
          c := c.(approvedRoles := c.roles);
          c := c.(state := Approved);
          confirmation := Some(c);
        } else if c.state != Approved {
          return Some(Conflict);
        }
      }
      var one := ConfirmOne(b, stores, index, ready);
      if one.Err? {
        return Some(one.error);
      }
      batch := one.value.batch.(confirmation := confirmation, version := one.value.batch.version + 1);
      stores := one.value.stores;
      return None;
    }

    method SubmitImportConfirmation(version: nat, actor: string, revision: nat, token: nat, key: string, auto: bool, policyVersion: nat,
                                    digest: string, roles: seq<string>, assignees: map<string, set<string>>, now: int)
      returns (error: Option<ImportError>)
      modifies this`batch
      ensures match Save(Freeze(old(batch), version, actor, revision, token, key, auto, policyVersion, digest, roles, assignees, now))
              case Ok(b) => error == None && batch == b
              case Err(e) => error == Some(e) && batch == old(batch)
    {
      var b := batch;
      if actor != b.actor || |roles| == 0 {
        return Some(Validation);
      }
      if b.confirmation.Some? || b.revision != revision || b.state != Previewed || b.token != token || token == 0 || b.tokenExpires <= now
         || b.version != version {
        return Some(Conflict);
      }
      for i := 0 to |b.items|
        invariant batch == old(batch) && forall k :: 0 <= k < i ==> b.items[k].mode != NormalMode && b.items[k].digest != ""
      {
        if b.items[i].mode == NormalMode || b.items[i].digest == "" {
          return Some(Validation);
        }
      }
      var confirmation := Confirmation(Starting, Manual, policyVersion, revision, digest, roles, [], map[], [], now + CONFIRMATION_LIFETIME);
      if auto {
        confirmation := confirmation.(decision := Auto, state := Approved, approvedRoles := roles);
      } else {
        var people: map<string, set<string>> := map[];
        for i := 0 to |roles|
          invariant batch == old(batch) && forall k :: 0 <= k < i ==> roles[k] in assignees && assignees[roles[k]] != {}
          invariant people == Assigned(roles[..i], assignees)
        {
          if roles[i] !in assignees || assignees[roles[i]] == {} {
            assert roles[i] in roles;
            return Some(Unsupported);
          }
          assert roles[..i + 1] == roles[..i] + [roles[i]];
          people := people[roles[i] := assignees[roles[i]]];
        }
        assert roles[..|roles|] == roles;
        confirmation := confirmation.(assignees := people);
      }
      b := b.(confirmation := Some(confirmation));
      b := b.(state := Queued, operation := true, committedRevision := revision);
      b := b.(commitKey := key, epoch := b.epoch + 1);
      batch := b.(version := b.version + 1);
      return None;
    }

    method ActImportConfirmation(version: nat, actor: string, key: string, action: Action, roles: seq<string>, now: int)
      returns (error: Option<ImportError>)
      modifies this`batch
      ensures match Save(Act(old(batch), version, actor, key, action, roles, now))
              case Ok(b) => error == None && batch == b
              case Err(e) => error == Some(e) && batch == old(batch)
    {
      var b := batch;
      if b.confirmation.None? {
        return Some(Conflict);
      }
      var c := b.confirmation.value;
      if action == Withdraw && actor != b.actor {
        return Some(Forbidden);
      }
      for i := 0 to |c.commands|
        invariant batch == old(batch) && FindCommand(c.commands, key, 0) == FindCommand(c.commands, key, i)
      {
        if c.commands[i].key == key {
          if c.commands[i].actor != actor || c.commands[i].action != action {
            return Some(Conflict);
          }
          batch := b.(version := b.version + 1);
          return None;
        }
      }
      var autoWithdraw := action == Withdraw && c.decision == Auto && c.state == Approved;
      if autoWithdraw {
        if b.state == Completed {
          return Some(Conflict);
        }
        for i := 0 to |b.items|
          invariant batch == old(batch) && forall k :: 0 <= k < i ==> !b.items[k].confirmed
        {
          if b.items[i].confirmed {
            return Some(Conflict);
          }
        }
      }
      if b.version != version || (c.state != PendingApproval && !autoWithdraw && !(action == Withdraw && c.state == Starting))
         || (!autoWithdraw && c.expiresAt <= now) {
        return Some(Conflict);
      }
      if |c.commands| >= COMMAND_LIMIT {
        return Some(Validation);
      }
      c := c.(commands := c.commands + [Command(key, actor, action, roles)]);
      if autoWithdraw {
        c := c.(state := Withdrawn);
        b := b.(state := Paused, epoch := b.epoch + 1);
        b := b.(leaseUntil := 0);
      }
      b := b.(confirmation := Some(c));
      batch := b.(version := b.version + 1);
      return None;
    }
  }

  lemma {:induction false} StopsAt(items: seq<Item>, lines: seq<Line>)
    ensures var stop := FirstStop(items, lines, 0);
            stop < |lines| && lines[stop].staged ==> Find(items, ByKey(lines[stop].key), 0) < |items|
  {
  }

  lemma {:induction false} FailsThroughout(b: Batch, stores: Stores, i: nat, n: nat, ready: set<nat>)
    requires i <= n <= |b.items| && ConfirmItems(b, stores, i, ready).Err?
    ensures ConfirmItems(b, stores, n, ready) == ConfirmItems(b, stores, i, ready)
    decreases n
  {
    hide ConfirmItem;
    if i < n {
      FailsThroughout(b, stores, i, n - 1, ready);
    }
  }
}

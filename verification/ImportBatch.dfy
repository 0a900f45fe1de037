/**
  The ledger of one historical-import batch: what each operation on it does under the batch's row
  lock (internal/application/contract_import_preview.go, contract_import_commit.go,
  contract_import_confirmation.go, contract_import_dispatcher.go and
  internal/infrastructure/mysql/contract_import.go). A refused operation changes nothing; every
  accepted one counts the version up. Who may call an operation is not modelled, except where only
  the batch's creator may.
 */
module ImportBatch {
  import opened Wrappers

  const LEASE := 120
  const COMMAND_LIMIT := 1000
  const CONFIRMATION_LIFETIME := 72 * 3600
  const TOKEN_LIFETIME := 30 * 60

  datatype BatchState =
    | Draft | Previewed | BlockedBatch | Queued | Running | Paused | Partial
    | TargetsPending | ConfirmationPending | Completed | Expired

  datatype ItemState = PendingItem | Ready | NeedsProvision | Created | Complete | BlockedItem | CorrectionRequired | NeedsReview

  datatype Mode = NormalMode | ArchiveOnly | ContinueLive | HistoricalClosed

  /** A line of the manifest, and what has become of it; `content` stands for its fields, `issues` for their codes. */
  datatype Item = Item(id: nat, key: string, record: string, content: string, mode: Mode, sourceRevision: nat, digest: string,
                       state: ItemState, issues: seq<string>, contract: Option<nat>, confirmed: bool)

  datatype Decision = Unpinned | Auto | Manual
  datatype ConfirmationState = Starting | PendingApproval | Approved | Rejected | Withdrawn | Lapsed
  datatype Action = Approve | Reject | Withdraw
  datatype Command = Command(key: string, actor: string, action: Action, roles: seq<string>)

  datatype Confirmation = Confirmation(state: ConfirmationState, decision: Decision, policyVersion: nat, revision: nat, digest: string,
                                       roles: seq<string>, approvedRoles: seq<string>, assignees: map<string, set<string>>,
                                       commands: seq<Command>, expiresAt: int)

  /** A token or a lease of 0 means none. */
  datatype Batch = Batch(source: string, actor: string, state: BatchState, version: nat, revision: nat, epoch: nat, leaseUntil: int,
                         items: seq<Item>, confirmation: Option<Confirmation>, past: seq<Confirmation>,
                         operation: bool, committedRevision: nat, commitKey: string, token: nat, tokenExpires: int, expiresAt: int)

  datatype ImportError = Conflict | Validation | Forbidden | Unsupported | NeedsReviewError | CorrectionError | BadManifest | IdentityConflict

  type Outcome = Result<Batch, ImportError>

  /** What an item is looked up by. */
  datatype Name = ByKey(key: string) | ById(id: nat)

  predicate Named(item: Item, name: Name) {
    match name
    case ByKey(key) => item.key == key
    case ById(id) => item.id == id
  }

  /** The position of the first item so named; the number of items if there is none. */
  function Find(items: seq<Item>, name: Name, i: nat): (j: nat)
    requires i <= |items|
    ensures i <= j <= |items| && (j < |items| ==> Named(items[j], name)) && forall k :: i <= k < j ==> !Named(items[k], name)
    decreases |items| - i
  {
    if i == |items| || Named(items[i], name) then i else Find(items, name, i + 1)
  }

  // ----- Editing -----

  /** Whether a batch may be edited; a confirmation that has come to nothing is put aside first. */
  function Editable(b: Batch, version: nat, now: int): Outcome {
    if b.version != version || b.expiresAt <= now then Err(Conflict)
    else if b.confirmation.Some? && b.confirmation.value.state !in {Withdrawn, Rejected, Lapsed} then Err(Conflict)
    else
      var open := if b.confirmation.None? then b
                  else b.(past := b.past + [b.confirmation.value], confirmation := None, operation := false, commitKey := "",
                          committedRevision := 0, state := Draft, epoch := b.epoch + 1);
      if open.state in {Queued, Running, Completed, Expired} then Err(Conflict) else Ok(open)
  }

  /** A staged file for the item with this key; `known` if the same file was staged before. */
  function AddSource(b: Batch, version: nat, key: string, known: bool, now: int): Outcome {
    match Editable(b, version, now)
    case Err(e) => Err(e)
    case Ok(open) =>
      if exists i :: 0 <= i < |open.items| && open.items[i].key == key && open.items[i].contract.Some? then Err(CorrectionError)
      else if known then Ok(open)
      else Ok(open.(revision := open.revision + 1, token := 0, state := Draft, epoch := open.epoch + 1))
  }

  /** A line of a new manifest; `staged` if its file has been staged for its key, `newId` for an item not there yet. */
  datatype Line = Line(key: string, record: string, content: string, mode: Mode, staged: bool, newId: nat)

  predicate ValidManifest(lines: seq<Line>) {
    && lines != []
    && (forall i, j :: 0 <= i < j < |lines| ==> lines[i].key != lines[j].key && lines[i].record != lines[j].record)
  }

  predicate SameLine(item: Item, line: Line) {
    item.key == line.key && item.record == line.record && item.content == line.content && item.mode == line.mode
  }

  /** The line stops the new manifest: its file is missing, or it would change a created contract. */
  predicate Stops(items: seq<Item>, line: Line) {
    var at := Find(items, ByKey(line.key), 0);
    !line.staged || (at < |items| && items[at].contract.Some? && !SameLine(items[at], line))
  }

  function FirstStop(items: seq<Item>, lines: seq<Line>, i: nat): (j: nat)
    requires i <= |lines|
    ensures i <= j <= |lines| && (j < |lines| ==> Stops(items, lines[j])) && forall k :: i <= k < j ==> !Stops(items, lines[k])
    decreases |lines| - i
  {
    if i == |lines| || Stops(items, lines[i]) then i else FirstStop(items, lines, i + 1)
  }

  /** The item has a contract and no line in the new manifest. */
  predicate Dropped(lines: seq<Line>, item: Item) {
    item.contract.Some? && forall i :: 0 <= i < |lines| ==> lines[i].key != item.key
  }

  function Renewed(b: Batch, line: Line): Item {
    var at := Find(b.items, ByKey(line.key), 0);
    if at < |b.items| && b.items[at].contract.Some? then b.items[at]
    else Item(if at < |b.items| then b.items[at].id else line.newId, line.key, line.record, line.content, line.mode,
              b.revision + 1, "", PendingItem, [], None, false)
  }

  /** The item's contract stays; the item waits for a correction. */
  function Corrected(b: Batch, i: nat): Batch
    requires i < |b.items|
  {
    b.(state := Partial, epoch := b.epoch + 1, token := 0,
       items := b.items[i := b.items[i].(state := CorrectionRequired, issues := ["IMPORT_CORRECTION_REQUIRED"])])
  }

  /** The position of some dropped item, given one to start from; the number of items if there is none. */
  function FindDropped(items: seq<Item>, lines: seq<Line>, i: nat): (j: nat)
    requires i <= |items|
    ensures i <= j <= |items| && (j < |items| ==> Dropped(lines, items[j])) && forall k :: i <= k < j ==> !Dropped(lines, items[k])
    decreases |items| - i
  {
    if i == |items| || Dropped(lines, items[i]) then i else FindDropped(items, lines, i + 1)
  }

  function SetManifest(b: Batch, version: nat, source: string, lines: seq<Line>, now: int): Outcome {
    if !ValidManifest(lines) then Err(Validation)
    else
      match Editable(b, version, now)
      case Err(e) => Err(e)
      case Ok(open) =>
        var stop := FirstStop(open.items, lines, 0);
        if source != open.source then Err(Validation)
        else if stop < |lines| then
          if !lines[stop].staged then Err(Validation) else Ok(Corrected(open, Find(open.items, ByKey(lines[stop].key), 0)))
        else if FindDropped(open.items, lines, 0) < |open.items| then Ok(Corrected(open, FindDropped(open.items, lines, 0)))
        else Ok(open.(items := seq(|lines|, i requires 0 <= i < |lines| => Renewed(open, lines[i])),
                      epoch := open.epoch + 1, revision := open.revision + 1, token := 0, state := Draft))
  }

  /** The manifest would change an item that has a contract, or drop it. */
  predicate Contradicts(items: seq<Item>, lines: seq<Line>) {
    exists i :: 0 <= i < |items| && items[i].contract.Some? &&
                (Dropped(lines, items[i]) || exists k :: 0 <= k < |lines| && lines[k].key == items[i].key && !SameLine(items[i], lines[k]))
  }

  /**
    An accepted manifest asks for a correction exactly when it contradicts a contract; then one such
    item is marked and nothing else about the items changes, else the items are those of the manifest.
   */
  lemma {:induction false} CorrectionExactly(b: Batch, version: nat, source: string, lines: seq<Line>, now: int)
    requires ItemsApart(b.items) && SetManifest(b, version, source, lines, now).Ok?
    ensures var next := SetManifest(b, version, source, lines, now).value;
            && next.state in {Draft, Partial}
            && (next.state == Partial <==> Contradicts(b.items, lines))
            && (next.state == Partial ==>
                  exists i :: 0 <= i < |b.items| && b.items[i].contract.Some?
                              && next.items == b.items[i := b.items[i].(state := CorrectionRequired, issues := ["IMPORT_CORRECTION_REQUIRED"])])
            && (next.state == Draft ==> |next.items| == |lines| && forall i :: 0 <= i < |lines| ==> SameLine(next.items[i], lines[i]))
            && next.revision == if next.state == Draft then b.revision + 1 else b.revision
  {
    EditableItems(b, version, now);
    hide Editable;
    var open := Editable(b, version, now).value;
    var stop, dropped := FirstStop(open.items, lines, 0), FindDropped(open.items, lines, 0);
    if stop < |lines| {
      var at := Find(open.items, ByKey(lines[stop].key), 0);
      assert open.items[at].contract.Some? && lines[stop].key == open.items[at].key && !SameLine(open.items[at], lines[stop]);
    } else if dropped == |open.items| {
      NothingContradicts(open.items, lines);
      forall i | 0 <= i < |lines| ensures SameLine(Renewed(open, lines[i]), lines[i]) {
        assert !Stops(open.items, lines[i]);
      }
    }
  }

  lemma EditableItems(b: Batch, version: nat, now: int)
    ensures Editable(b, version, now).Ok? ==>
              Editable(b, version, now).value.items == b.items && Editable(b, version, now).value.revision == b.revision
  {
  }

  lemma {:induction false} NothingContradicts(items: seq<Item>, lines: seq<Line>)
    requires ItemsApart(items) && FirstStop(items, lines, 0) == |lines| && FindDropped(items, lines, 0) == |items|
    ensures !Contradicts(items, lines)
  {
    forall i, k | 0 <= i < |items| && items[i].contract.Some? && 0 <= k < |lines| && lines[k].key == items[i].key
      ensures SameLine(items[i], lines[k])
    {
      assert !Stops(items, lines[k]);
      assert Find(items, ByKey(lines[k].key), 0) == i;
    }
  }

  /** What the preview found for an item: its digest, or the codes of what is wrong. */
  datatype Finding = Good(digest: string, provision: bool) | Bad(codes: seq<string>)

  function Found(item: Item, finding: Finding): Item {
    if item.contract.Some? then item
    else
      match finding
      case Good(digest, provision) => item.(state := if provision then NeedsProvision else Ready, issues := [], digest := digest)
      case Bad(codes) => item.(state := BlockedItem, issues := codes)
  }

  predicate AllGood(items: seq<Item>, findings: seq<Finding>)
    requires |findings| == |items|
  {
    forall i :: 0 <= i < |items| ==> items[i].contract.Some? || findings[i].Good?
  }

  /**
    The preview reads the batch, examines its items and saves the result under the version it read,
    so it is one step here. A mix of normal and historical items is never ready.
   */
  function Preview(b: Batch, version: nat, revision: nat, findings: seq<Finding>, mixed: bool, token: nat, now: int): Outcome {
    if b.revision != revision || b.items == [] || b.state in {Queued, Running, Completed} || |findings| != |b.items| then Err(Conflict)
    else
      match Editable(b, version, now)
      case Err(e) => Err(e)
      case Ok(open) =>
        Ok(open.(items := seq(|b.items|, i requires 0 <= i < |b.items| => Found(b.items[i], findings[i])),
                 state := if AllGood(b.items, findings) && !mixed then Previewed else BlockedBatch,
                 token := token, tokenExpires := now + TOKEN_LIFETIME))
  }

  // ----- Committing -----

  /** The same commit again changes nothing; a new one queues a previewed batch of normal items. */
  function Commit(b: Batch, actor: string, revision: nat, token: nat, key: string, now: int): Outcome {
    if actor != b.actor then Err(Forbidden)
    else if b.operation && b.committedRevision == revision then
      if b.revision != revision || b.commitKey != key then Err(Conflict) else Ok(b)
    else if b.revision != revision || b.token != token || token == 0 || b.state != Previewed || b.tokenExpires <= now || b.expiresAt <= now then
      Err(Conflict)
    else if exists i :: 0 <= i < |b.items| && b.items[i].mode != NormalMode then Err(Unsupported)
    else Ok(b.(commitKey := key, operation := true, committedRevision := b.revision, epoch := b.epoch + 1, state := Queued))
  }

  predicate Resumable(c: Confirmation) {
    c.state == Starting || (c.state == Approved && c.decision == Auto)
  }

  /** An item that cannot go on by itself: it needs a correction, a review or a new source identity. */
  predicate Terminal(item: Item) {
    || item.state in {CorrectionRequired, NeedsReview}
    || (item.state == BlockedItem
        && exists i :: 0 <= i < |item.issues| && item.issues[i] in {"IMPORT_SOURCE_ID_CONFLICT", "IMPORT_CORRECTION_REQUIRED", "IMPORT_NEEDS_REVIEW"})
  }

  function Rearmed(item: Item): Item {
    if item.contract.Some? || Terminal(item) then item else item.(issues := [], state := Ready)
  }

  /** Pausing keeps everything; only the creator resumes, and created or terminal items stay as they are. */
  function Control(b: Batch, version: nat, resume: bool, actor: string): Outcome {
    if b.confirmation.Some? && !Resumable(b.confirmation.value) then Err(Conflict)
    else if b.version != version || !b.operation || b.state == Completed then Err(Conflict)
    else if !resume then Ok(b.(epoch := b.epoch + 1, leaseUntil := 0, state := Paused))
    else if exists i :: 0 <= i < |b.items| && b.items[i].state in {CorrectionRequired, NeedsReview} then Err(NeedsReviewError)
    else if b.committedRevision != b.revision then Err(Conflict)
    else if actor != b.actor then Err(Forbidden)
    else Ok(b.(epoch := b.epoch + 1, leaseUntil := 0, state := Queued,
               items := seq(|b.items|, i requires 0 <= i < |b.items| => Rearmed(b.items[i]))))
  }

  // ----- Executing -----

  predicate Claimable(b: Batch, now: int) {
    b.state in {Queued, Running} && (b.leaseUntil == 0 || b.leaseUntil < now)
  }

  function Claim(b: Batch, now: int): Outcome {
    if Claimable(b, now) then Ok(b.(state := Running, epoch := b.epoch + 1, leaseUntil := now + LEASE)) else Err(Conflict)
  }

  predicate Executing(b: Batch, epoch: nat) {
    b.epoch == epoch && b.state == Running
  }

  function MarkComplete(b: Batch, epoch: nat, id: nat): Outcome {
    var i := Find(b.items, ById(id), 0);
    if !Executing(b, epoch) || i == |b.items| then Err(Conflict)
    else Ok(b.(items := b.items[i := b.items[i].(state := Complete, issues := [])]))
  }

  /** The first item a dispatch works on; the number of items if none is left. */
  function NextOpen(items: seq<Item>, i: nat): (j: nat)
    requires i <= |items|
    ensures i <= j <= |items| && (j < |items| ==> items[j].state != Complete && !Terminal(items[j]))
    ensures forall k :: i <= k < j ==> items[k].state == Complete || Terminal(items[k])
    decreases |items| - i
  {
    if i == |items| || !(items[i].state == Complete || Terminal(items[i])) then i else NextOpen(items, i + 1)
  }

  /** How a dispatch ended: with its item done, or with a failure code, perhaps one that asks for a review. */
  datatype Ending = Done | FailedWith(code: string, review: bool)

  function Converged(b: Batch): BatchState {
    if b.confirmation.None? then Completed
    else if b.confirmation.value.state == Approved then TargetsPending
    else ConfirmationPending
  }

  /** A dispatch gives the batch back, with the item at `index` blocked if it failed. */
  function Finish(b: Batch, epoch: nat, index: nat, ending: Ending): Outcome {
    if !Executing(b, epoch) then Err(Conflict)
    else
      var free := b.(leaseUntil := 0);
      if ending.FailedWith? then
        Ok(free.(state := Partial,
                 items := if index < |b.items| then
                            b.items[index := b.items[index].(state := if ending.review then NeedsReview else BlockedItem, issues := [ending.code])]
                          else b.items))
      else if forall i :: 0 <= i < |b.items| ==> b.items[i].state == Complete then Ok(free.(state := Converged(b)))
      else Ok(free.(state := if index < |b.items| then Queued else Partial))
  }

  // ----- Confirming -----

  /** Who was found for each of the roles. */
  function Assigned(roles: seq<string>, assignees: map<string, set<string>>): map<string, set<string>> {
    map r | r in roles && r in assignees :: assignees[r]
  }

  /** AUTO is approved at once; MANUAL starts with somebody assigned to every role. */
  function NewConfirmation(auto: bool, policyVersion: nat, revision: nat, digest: string, roles: seq<string>,
                           assignees: map<string, set<string>>, now: int): Confirmation {
    if auto then Confirmation(Approved, Auto, policyVersion, revision, digest, roles, roles, map[], [], now + CONFIRMATION_LIFETIME)
    else Confirmation(Starting, Manual, policyVersion, revision, digest, roles, [], Assigned(roles, assignees), [], now + CONFIRMATION_LIFETIME)
  }

  /**
    The policy is decided in the transaction that freezes the confirmation, from the switch read
    there. The checks made before it hold of the frozen batch, whose version is compared.
   */
  function Freeze(b: Batch, version: nat, actor: string, revision: nat, token: nat, key: string, auto: bool, policyVersion: nat,
                  digest: string, roles: seq<string>, assignees: map<string, set<string>>, now: int): Outcome {
    if actor != b.actor || roles == [] then Err(Validation)
    else if b.confirmation.Some? then Err(Conflict)
    else if b.revision != revision || b.state != Previewed || b.token != token || token == 0 || b.tokenExpires <= now || b.version != version then
      Err(Conflict)
    else if exists i :: 0 <= i < |b.items| && (b.items[i].mode == NormalMode || b.items[i].digest == "") then Err(Validation)
    else if !auto && exists r :: r in roles && (r !in assignees || assignees[r] == {}) then Err(Unsupported)
    else Ok(b.(confirmation := Some(NewConfirmation(auto, policyVersion, revision, digest, roles, assignees, now)),
               state := Queued, operation := true, committedRevision := revision, commitKey := key, epoch := b.epoch + 1))
  }

  /** The first command with a key; the number of commands if there is none. */
  function FindCommand(commands: seq<Command>, key: string, i: nat): (j: nat)
    requires i <= |commands|
    ensures i <= j <= |commands|
    decreases |commands| - i
  {
    if i == |commands| || commands[i].key == key then i else FindCommand(commands, key, i + 1)
  }

  /** A command of the creator (withdrawing) or of an assignee. An AUTO confirmation is withdrawn at once, if nothing is confirmed yet. */
  function Act(b: Batch, version: nat, actor: string, key: string, action: Action, roles: seq<string>, now: int): Outcome {
    if b.confirmation.None? then Err(Conflict)
    else
      var c := b.confirmation.value;
      var auto := action == Withdraw && c.decision == Auto && c.state == Approved;
      var at := FindCommand(c.commands, key, 0);
      if action == Withdraw && actor != b.actor then Err(Forbidden)
      else if at < |c.commands| then if c.commands[at].actor != actor || c.commands[at].action != action then Err(Conflict) else Ok(b)
      else if auto && (b.state == Completed || exists i :: 0 <= i < |b.items| && b.items[i].confirmed) then Err(Conflict)
      else if b.version != version || !(c.state == PendingApproval || auto || (action == Withdraw && c.state == Starting))
              || (!auto && c.expiresAt <= now) then Err(Conflict)
      else if |c.commands| >= COMMAND_LIMIT then Err(Validation)
      else
        var acted := c.(commands := c.commands + [Command(key, actor, action, roles)]);
        if auto then Ok(b.(confirmation := Some(acted.(state := Withdrawn)), state := Paused, epoch := b.epoch + 1, leaseUntil := 0))
        else Ok(b.(confirmation := Some(acted)))
  }

  // ----- The rest of the system -----

  /** Cleaning up an expired batch that was never committed. */
  function Clean(b: Batch, now: int): Outcome {
    if b.expiresAt > now || (b.operation && b.state != Completed) then Err(Conflict)
    else if !b.operation then Ok(b.(state := Expired, epoch := b.epoch + 1, token := 0))
    else Ok(b)
  }

  /** The downstream targets move the state of a batch whose confirmation is approved, or only count its version up. */
  function TargetsMove(b: Batch, state: Option<BatchState>): Outcome {
    if state.None? then Ok(b)
    else if b.confirmation.Some? && b.confirmation.value.state == Approved && state.value in {TargetsPending, Partial, Completed} then
      Ok(b.(state := state.value))
    else Err(Conflict)
  }

  // ----- All operations on one batch alone -----

  datatype Change =
    | AddSourceTo(version: nat, key: string, known: bool, now: int)
    | SetManifestOf(version: nat, source: string, lines: seq<Line>, now: int)
    | PreviewOf(version: nat, revision: nat, findings: seq<Finding>, mixed: bool, token: nat, now: int)
    | CommitBy(actor: string, revision: nat, token: nat, key: string, now: int)
    | ControlBy(version: nat, resume: bool, actor: string)
    | FreezeBy(version: nat, actor: string, revision: nat, token: nat, key: string, auto: bool, policyVersion: nat, digest: string,
               roles: seq<string>, assignees: map<string, set<string>>, now: int)
    | ActBy(version: nat, actor: string, key: string, action: Action, roles: seq<string>, now: int)
    | CleanAt(now: int)
    | MoveByTargets(state: Option<BatchState>)

  function Save(r: Outcome): Outcome {
    match r
    case Ok(b) => Ok(b.(version := b.version + 1))
    case Err(e) => Err(e)
  }

  function Apply(b: Batch, change: Change): Outcome {
    Save(match change
         case AddSourceTo(version, key, known, now) => AddSource(b, version, key, known, now)
         case SetManifestOf(version, source, lines, now) => SetManifest(b, version, source, lines, now)
         case PreviewOf(version, revision, findings, mixed, token, now) => Preview(b, version, revision, findings, mixed, token, now)
         case CommitBy(actor, revision, token, key, now) => Commit(b, actor, revision, token, key, now)
         case ControlBy(version, resume, actor) => Control(b, version, resume, actor)
         case FreezeBy(version, actor, revision, token, key, auto, policyVersion, digest, roles, assignees, now) =>
           Freeze(b, version, actor, revision, token, key, auto, policyVersion, digest, roles, assignees, now)
         case ActBy(version, actor, key, action, roles, now) => Act(b, version, actor, key, action, roles, now)
         case CleanAt(now) => Clean(b, now)
         case MoveByTargets(state) => TargetsMove(b, state))
  }

  // ----- What holds of a batch -----

  /** Keys, records and ids tell the items apart. */
  predicate ItemsApart(items: seq<Item>) {
    forall i, j :: 0 <= i < j < |items| ==>
      items[i].key != items[j].key && items[i].record != items[j].record && items[i].id != items[j].id
  }

  /** An item is confirmed only with a contract and under an approved confirmation; a MANUAL approval confirms every item. */
  predicate ConfirmationOk(b: Batch) {
    && (forall i :: 0 <= i < |b.items| && b.items[i].confirmed ==>
          b.items[i].contract.Some? && b.confirmation.Some? && b.confirmation.value.state == Approved)
    && (b.confirmation.Some? ==>
          && (b.confirmation.value.decision == Auto ==> b.confirmation.value.state in {Approved, Withdrawn})
          && (b.confirmation.value.decision == Manual && b.confirmation.value.state == Approved ==>
                forall i :: 0 <= i < |b.items| ==> b.items[i].confirmed))
  }

  predicate BatchOk(b: Batch) {
    ItemsApart(b.items) && ConfirmationOk(b)
  }

  /** The item is the same record with the same contract. */
  predicate SameRecord(a: Item, b: Item) {
    && a.id == b.id && a.key == b.key && a.record == b.record && a.content == b.content && a.mode == b.mode
    && a.digest == b.digest && a.contract == b.contract && a.sourceRevision == b.sourceRevision
    && (a.confirmed ==> b.confirmed)
  }

  /** Every item that has a contract is still there, and no item got one. */
  predicate ContractsStay(a: seq<Item>, b: seq<Item>) {
    && (forall i :: 0 <= i < |a| && a[i].contract.Some? ==> exists j :: 0 <= j < |b| && SameRecord(a[i], b[j]))
    && (forall j :: 0 <= j < |b| && b[j].contract.Some? ==> exists i :: 0 <= i < |a| && SameRecord(a[i], b[j]))
  }

  predicate SameContents(a: Batch, b: Batch) {
    && |a.items| == |b.items| && a.revision == b.revision
    && forall i :: 0 <= i < |a.items| ==>
         && a.items[i].id == b.items[i].id && a.items[i].key == b.items[i].key && a.items[i].record == b.items[i].record
         && a.items[i].content == b.items[i].content && a.items[i].mode == b.items[i].mode && a.items[i].digest == b.items[i].digest
         && a.items[i].sourceRevision == b.items[i].sourceRevision
         && (a.items[i].contract.Some? ==> b.items[i].contract == a.items[i].contract)
  }

  /** A pinned policy stays with its confirmation for as long as that is current. */
  predicate PolicyStays(a: Option<Confirmation>, b: Option<Confirmation>) {
    a.Some? && a.value.decision != Unpinned && b.Some? ==>
      b.value.decision == a.value.decision && b.value.policyVersion == a.value.policyVersion
  }

  /** Versions strictly grow, epochs do not fall, and within one epoch of execution the contents stay the same. */
  predicate Fenced(a: Batch, b: Batch) {
    && b.version > a.version && b.epoch >= a.epoch && b.source == a.source && b.actor == a.actor
    && (b.state == Running && b.epoch == a.epoch ==> a.state == Running && SameContents(a, b))
  }

  /** What every operation but the creation of a contract keeps. */
  predicate Onward(a: Batch, b: Batch) {
    Fenced(a, b) && ContractsStay(a.items, b.items) && PolicyStays(a.confirmation, b.confirmation)
  }

  /** What an operation makes of a batch, to be saved. */
  predicate Kept(b: Batch, next: Batch) {
    next.version == b.version && BatchOk(next.(version := b.version + 1)) && Onward(b, next.(version := b.version + 1))
  }

  /** New item ids are not in use yet. */
  predicate FreshIds(items: seq<Item>, lines: seq<Line>) {
    && (forall i, j :: 0 <= i < |lines| && 0 <= j < |items| ==> lines[i].newId != items[j].id)
    && (forall i, j :: 0 <= i < j < |lines| ==> lines[i].newId != lines[j].newId)
  }

  // ----- Every operation keeps it -----

  /** The items stay in place, keeping contracts and confirmations. */
  predicate InPlace(a: seq<Item>, b: seq<Item>) {
    |a| == |b| && forall i :: 0 <= i < |a| ==>
      && a[i].id == b[i].id && a[i].key == b[i].key && a[i].record == b[i].record && a[i].content == b[i].content && a[i].mode == b[i].mode
      && a[i].sourceRevision == b[i].sourceRevision && a[i].contract == b[i].contract && (a[i].contract.Some? ==> a[i].digest == b[i].digest)
      && a[i].confirmed == b[i].confirmed
  }

  lemma InPlaceKeeps(a: seq<Item>, b: seq<Item>)
    requires InPlace(a, b) && ItemsApart(a)
    ensures ItemsApart(b) && ContractsStay(a, b)
  {
    forall i | 0 <= i < |a| && a[i].contract.Some? ensures SameRecord(a[i], b[i]) {
    }
  }

  lemma EditableKeeps(b: Batch, version: nat, now: int)
    requires BatchOk(b) && Editable(b, version, now).Ok?
    ensures var open := Editable(b, version, now).value;
            && open == b.(past := open.past, confirmation := None, operation := open.operation, commitKey := open.commitKey,
                          committedRevision := open.committedRevision, state := open.state, epoch := open.epoch)
            && open.epoch >= b.epoch && open.state !in {Queued, Running} && forall i :: 0 <= i < |b.items| ==> !b.items[i].confirmed
  {
  }

  lemma FinishKeeps(b: Batch, next: Batch)
    requires BatchOk(b) && InPlace(b.items, next.items) && ConfirmationOk(next)
    requires next.version == b.version && next.epoch >= b.epoch && next.source == b.source && next.actor == b.actor
    requires next.state != Running && PolicyStays(b.confirmation, next.confirmation)
    ensures Kept(b, next)
  {
    InPlaceKeeps(b.items, next.items);
  }

  lemma AddSourceKeeps(b: Batch, version: nat, key: string, known: bool, now: int)
    requires BatchOk(b) && AddSource(b, version, key, known, now).Ok?
    ensures Kept(b, AddSource(b, version, key, known, now).value)
  {
    EditableKeeps(b, version, now);
    hide Editable;
    FinishKeeps(b, AddSource(b, version, key, known, now).value);
  }

  lemma CorrectedKeeps(b: Batch, open: Batch, i: nat)
    requires BatchOk(b) && open.items == b.items && open.confirmation == None && i < |open.items|
    requires open.version == b.version && open.epoch >= b.epoch && open.source == b.source && open.actor == b.actor
    requires forall k :: 0 <= k < |b.items| ==> !b.items[k].confirmed
    ensures Kept(b, Corrected(open, i))
  {
    FinishKeeps(b, Corrected(open, i));
  }

  lemma {:induction false} KeyFound(items: seq<Item>, i: nat)
    requires ItemsApart(items) && i < |items|
    ensures Find(items, ByKey(items[i].key), 0) == i
  {
    var at := Find(items, ByKey(items[i].key), 0);
    assert at <= i && items[at].key == items[i].key;
  }

  lemma {:induction false} StillListed(b: Batch, lines: seq<Line>, i: nat) returns (j: nat)
    requires ItemsApart(b.items) && i < |b.items| && b.items[i].contract.Some? && !Dropped(lines, b.items[i])
    ensures j < |lines| && Renewed(b, lines[j]) == b.items[i]
  {
    j :| 0 <= j < |lines| && lines[j].key == b.items[i].key;
    KeyFound(b.items, i);
  }

  lemma Listed(item: Item, items: seq<Item>, j: nat)
    requires j < |items| && items[j] == item
    ensures exists j :: 0 <= j < |items| && SameRecord(item, items[j])
    ensures exists j :: 0 <= j < |items| && SameRecord(items[j], item)
  {
    assert SameRecord(item, items[j]) && SameRecord(items[j], item);
  }

  lemma {:induction false} RenewedKeepsContracts(b: Batch, lines: seq<Line>, items: seq<Item>)
    requires ItemsApart(b.items) && FindDropped(b.items, lines, 0) == |b.items|
    requires |items| == |lines| && forall i :: 0 <= i < |lines| ==> items[i] == Renewed(b, lines[i])
    ensures ContractsStay(b.items, items)
  {
    hide Dropped, ItemsApart, SameRecord;
    forall i | 0 <= i < |b.items| && b.items[i].contract.Some?
      ensures exists j :: 0 <= j < |items| && SameRecord(b.items[i], items[j])
    {
      var j := StillListed(b, lines, i);
      Listed(b.items[i], items, j);
    }
    forall j | 0 <= j < |items| && items[j].contract.Some?
      ensures exists i :: 0 <= i < |b.items| && SameRecord(b.items[i], items[j])
    {
      Listed(items[j], b.items, Find(b.items, ByKey(lines[j].key), 0));
    }
  }

  lemma {:induction false} RenewedApart(b: Batch, lines: seq<Line>, items: seq<Item>)
    requires ItemsApart(b.items) && ValidManifest(lines) && FreshIds(b.items, lines) && FirstStop(b.items, lines, 0) == |lines|
    requires |items| == |lines| && forall i :: 0 <= i < |lines| ==> items[i] == Renewed(b, lines[i])
    ensures ItemsApart(items)
  {
    forall i | 0 <= i < |lines| ensures items[i].key == lines[i].key && items[i].record == lines[i].record {
      assert !Stops(b.items, lines[i]);
    }
    forall i, j | 0 <= i < j < |items| ensures items[i].key != items[j].key && items[i].record != items[j].record && items[i].id != items[j].id {
      var p, q := Find(b.items, ByKey(lines[i].key), 0), Find(b.items, ByKey(lines[j].key), 0);
    }
  }

  lemma {:induction false} SetManifestKeeps(b: Batch, version: nat, source: string, lines: seq<Line>, now: int)
    requires BatchOk(b) && FreshIds(b.items, lines) && SetManifest(b, version, source, lines, now).Ok?
    ensures Kept(b, SetManifest(b, version, source, lines, now).value)
  {
    EditableKeeps(b, version, now);
    var open := Editable(b, version, now).value;
    hide Editable, ItemsApart, ContractsStay, Corrected, Renewed;
    var stop := FirstStop(open.items, lines, 0);
    if stop < |lines| {
      CorrectedKeeps(b, open, Find(open.items, ByKey(lines[stop].key), 0));
    } else if FindDropped(open.items, lines, 0) < |open.items| {
      CorrectedKeeps(b, open, FindDropped(open.items, lines, 0));
    } else {
      var items := seq(|lines|, i requires 0 <= i < |lines| => Renewed(open, lines[i]));
      RenewedApart(open, lines, items);
      RenewedKeepsContracts(open, lines, items);
      RenewedUnconfirmed(open, lines, items);
    }
  }

  lemma {:induction false} RenewedUnconfirmed(b: Batch, lines: seq<Line>, items: seq<Item>)
    requires forall k :: 0 <= k < |b.items| ==> !b.items[k].confirmed
    requires |items| == |lines| && forall i :: 0 <= i < |lines| ==> items[i] == Renewed(b, lines[i])
    ensures forall i :: 0 <= i < |items| ==> !items[i].confirmed
  {
  }

  lemma PreviewKeeps(b: Batch, version: nat, revision: nat, findings: seq<Finding>, mixed: bool, token: nat, now: int)
    requires BatchOk(b) && Preview(b, version, revision, findings, mixed, token, now).Ok?
    ensures Kept(b, Preview(b, version, revision, findings, mixed, token, now).value)
  {
    EditableKeeps(b, version, now);
    hide Editable;
    FinishKeeps(b, Preview(b, version, revision, findings, mixed, token, now).value);
  }

  lemma CommitKeeps(b: Batch, actor: string, revision: nat, token: nat, key: string, now: int)
    requires BatchOk(b) && Commit(b, actor, revision, token, key, now).Ok?
    ensures Kept(b, Commit(b, actor, revision, token, key, now).value)
  {
    InPlaceKeeps(b.items, b.items);
  }

  lemma ControlKeeps(b: Batch, version: nat, resume: bool, actor: string)
    requires BatchOk(b) && Control(b, version, resume, actor).Ok?
    ensures Kept(b, Control(b, version, resume, actor).value)
  {
    hide Terminal, Resumable;
    FinishKeeps(b, Control(b, version, resume, actor).value);
  }

  lemma FreezeKeeps(b: Batch, change: Change)
    requires BatchOk(b) && change.FreezeBy? && Apply(b, change).Ok?
    ensures BatchOk(Apply(b, change).value) && Onward(b, Apply(b, change).value)
  {
    InPlaceKeeps(b.items, b.items);
  }

  lemma ActKeeps(b: Batch, version: nat, actor: string, key: string, action: Action, roles: seq<string>, now: int)
    requires BatchOk(b) && Act(b, version, actor, key, action, roles, now).Ok?
    ensures Kept(b, Act(b, version, actor, key, action, roles, now).value)
  {
    InPlaceKeeps(b.items, b.items);
  }

  lemma MoveKeeps(b: Batch, change: Change)
    requires BatchOk(b) && (change.CleanAt? || change.MoveByTargets?) && Apply(b, change).Ok?
    ensures BatchOk(Apply(b, change).value) && Onward(b, Apply(b, change).value)
  {
    InPlaceKeeps(b.items, b.items);
  }

  /**
    Every operation on a batch alone keeps what holds of a batch: it loses and changes no contract,
    confirms nothing, keeps a pinned policy, and leaves an executing batch's contents alone.
   */
  lemma ApplyKeeps(b: Batch, change: Change)
    requires BatchOk(b) && Apply(b, change).Ok? && (change.SetManifestOf? ==> FreshIds(b.items, change.lines))
    ensures BatchOk(Apply(b, change).value) && Onward(b, Apply(b, change).value)
  {
    hide BatchOk, Onward, AddSource, SetManifest, Preview, Commit, Control, Freeze, Act, Clean, TargetsMove;
    match change
    case AddSourceTo(version, key, known, now) => AddSourceKeeps(b, version, key, known, now);
    case SetManifestOf(version, source, lines, now) => SetManifestKeeps(b, version, source, lines, now);
    case PreviewOf(version, revision, findings, mixed, token, now) => PreviewKeeps(b, version, revision, findings, mixed, token, now);
    case CommitBy(actor, revision, token, key, now) => CommitKeeps(b, actor, revision, token, key, now);
    case ControlBy(version, resume, actor) => ControlKeeps(b, version, resume, actor);
    case FreezeBy(_, _, _, _, _, _, _, _, _, _, _) => FreezeKeeps(b, change);
    case ActBy(version, actor, key, action, roles, now) => ActKeeps(b, version, actor, key, action, roles, now);
    case _ => MoveKeeps(b, change);
  }
}

/**
  The ledger of CRM provisioning for one imported record
  (internal/domain/contract/import_crm_provision.go, internal/infrastructure/mysql/
  import_crm_provision.go and internal/application/contract_import_provision.go). Workers hold
  snapshots of the row; every write to it is a compare-and-set on state and attempt. The CRM
  creates at most one object per idempotency key, and every call to it may fail.
 */
module Provision {
  import opened Wrappers

  datatype Phase = Pending | CustomerReady | ContractReady | OpportunityReady | Completed | Blocked

  /** The ledger row; an id of 0 is not recorded yet. */
  datatype Row = Row(state: Phase, attempt: nat, customer: nat, customerCreated: bool,
                     opportunity: nat, opportunityCreated: bool, error: string)

  datatype Advance = Advance(from: Phase, to: Phase, attempt: nat, customer: nat, customerCreated: bool,
                             opportunity: nat, opportunityCreated: bool)

  datatype LedgerError = InvalidTransition | StateConflict

  // ----- The domain rules -----

  predicate Terminal(s: Phase) {
    s == Completed || s == Blocked
  }

  function NextPhase(s: Phase): Option<Phase> {
    match s
    case Pending => Some(CustomerReady)
    case CustomerReady => Some(ContractReady)
    case ContractReady => Some(OpportunityReady)
    case OpportunityReady => Some(Completed)
    case _ => None
  }

  predicate TransitionAllowed(from: Phase, to: Phase) {
    !Terminal(from) && (to == Blocked || NextPhase(from) == Some(to))
  }

  predicate ValidAdvance(a: Advance) {
    && TransitionAllowed(a.from, a.to)
    && (a.to == CustomerReady ==> a.customer != 0)
    && (a.to == OpportunityReady ==> a.opportunity != 0)
  }

  /** The row after an advance whose conditions hold. */
  function Advanced(row: Row, a: Advance): Row {
    row.(state := a.to, attempt := a.attempt + 1, error := "",
         customer := if a.customer != 0 then a.customer else row.customer,
         customerCreated := if a.customer != 0 then a.customerCreated else row.customerCreated,
         opportunity := if a.opportunity != 0 then a.opportunity else row.opportunity,
         opportunityCreated := if a.opportunity != 0 then a.opportunityCreated else row.opportunityCreated)
  }

  predicate Current(row: Option<Row>, state: Phase, attempt: nat) {
    row.Some? && row.value.state == state && row.value.attempt == attempt
  }

  function UpsertStart(row: Option<Row>): Row {
    if row.None? then Row(Pending, 0, 0, false, 0, false, "")
    else row.value.(attempt := row.value.attempt + 1, error := "")
  }

  function AdvanceRow(row: Option<Row>, a: Advance): Result<Row, LedgerError> {
    if !ValidAdvance(a) then Err(InvalidTransition)
    else if !Current(row, a.from, a.attempt) then Err(StateConflict)
    else Ok(Advanced(row.value, a))
  }

  function ResetRow(row: Option<Row>, attempt: nat): Result<Row, LedgerError> {
    if Current(row, Blocked, attempt) then Ok(row.value.(state := Pending, attempt := attempt + 1, error := ""))
    else Err(StateConflict)
  }

  /** A failure blocks the row and keeps its attempt; nothing here keeps a completed row from being blocked. */
  function FailRow(row: Option<Row>, from: Phase, attempt: nat, code: string): Result<Row, LedgerError> {
    if Current(row, from, attempt) then Ok(row.value.(state := Blocked, error := code)) else Err(StateConflict)
  }

  class ProvisionStore {
    var row: Option<Row>

    method UpsertStartImportCRMProvision() returns (r: Row)
      modifies this
      ensures r == UpsertStart(old(row)) && row == Some(r)
    {
      if row.None? {
        row := Some(Row(Pending, 0, 0, false, 0, false, ""));
      } else {
        row := Some(row.value.(attempt := row.value.attempt + 1, error := ""));
      }
      return row.value;
    }

    method AdvanceImportCRMProvision(a: Advance) returns (error: Option<LedgerError>)
      modifies this
      ensures match AdvanceRow(old(row), a)
              case Ok(next) => error == None && row == Some(next)
              case Err(e) => error == Some(e) && row == old(row)
    {
      if !ValidAdvance(a) {
        return Some(InvalidTransition);
      }
      if row.None? || row.value.state != a.from || row.value.attempt != a.attempt {
        return Some(StateConflict);
      }
      var next := row.value.(state := a.to, attempt := a.attempt + 1, error := "");
      if a.customer != 0 {
        next := next.(customer := a.customer, customerCreated := a.customerCreated);
      }
      if a.opportunity != 0 {
        next := next.(opportunity := a.opportunity, opportunityCreated := a.opportunityCreated);
      }
      row := Some(next);
      return None;
    }

    method ResetImportCRMProvision(attempt: nat) returns (error: Option<LedgerError>)
      modifies this
      ensures match ResetRow(old(row), attempt)
              case Ok(next) => error == None && row == Some(next)
              case Err(e) => error == Some(e) && row == old(row)
    {
      if row.None? || row.value.state != Blocked || row.value.attempt != attempt {
        return Some(StateConflict);
      }
      row := Some(row.value.(state := Pending, attempt := attempt + 1, error := ""));
      return None;
    }

    method RecordImportCRMProvisionError(from: Phase, attempt: nat, code: string) returns (error: Option<LedgerError>)
      modifies this
      ensures match FailRow(old(row), from, attempt, code)
              case Ok(next) => error == None && row == Some(next)
              case Err(e) => error == Some(e) && row == old(row)
    {
      if row.None? || row.value.state != from || row.value.attempt != attempt {
        return Some(StateConflict);
      }
      row := Some(row.value.(state := Blocked, error := code));
      return None;
    }
  }

  // ----- Workers -----

  /** Where a worker goes on once it has read the row back after one of its own writes. */
  datatype Stage = AfterReset | AfterCustomer | AfterContract | AfterOpportunity

  /**
    A worker between two calls: what it holds of the row, and what it got from the CRM. The row is
    read back in a call of its own, after the write; `attempt` is that of the worker's write.
   */
  datatype Worker =
    | Idle
    | Loaded(record: Row)
    | NeedsCustomer(record: Row)
    | HasCustomer(record: Row, id: nat, created: bool)
    | NeedsContract(record: Row)
    | HasContract(record: Row)
    | NeedsOpportunity(record: Row)
    | HasOpportunity(record: Row, id: nat, created: bool)
    | WritingBack(record: Row, id: nat)
    | Written(record: Row)
    | Reading(stage: Stage, attempt: nat, id: nat)

  /** One ledger key: its row, what the CRM created under its keys, and the workers. */
  datatype World = World(row: Option<Row>, customers: Option<nat>, opportunities: Option<nat>, workers: map<nat, Worker>)

  /** A worker's next move; `Abandon` is a crash, or an error that leaves no trace in the ledger. */
  datatype Move =
    | Begin | Abandon | ResetBlocked | Read | FindCustomer(found: nat) | CreateCustomer(newId: nat) | Fail(code: string)
    | AdvanceCustomer | CommitContract | AdvanceContract | CreateOpportunity(newId: nat) | AdvanceOpportunity
    | WriteBack | Complete

  /** Where the code goes with a row it has just loaded. */
  function Enter(record: Row): Worker {
    match record.state
    case Pending => if record.customer == 0 then NeedsCustomer(record) else HasCustomer(record, record.customer, record.customerCreated)
    case CustomerReady => NeedsContract(record)
    case _ => AtOpportunity(record)
  }

  /** The ledger must have got as far as the contract; otherwise the worker gives up. */
  function AtOpportunity(record: Row): Worker {
    match record.state
    case ContractReady =>
      if record.opportunity == 0 then NeedsOpportunity(record) else HasOpportunity(record, record.opportunity, false)
    case OpportunityReady => WritingBack(record, record.opportunity)
    case _ => Idle
  }

  function AfterRead(stage: Stage, record: Row, id: nat): Worker {
    match stage
    case AfterReset => Enter(record)
    case AfterCustomer => if record.state == CustomerReady then NeedsContract(record) else AtOpportunity(record)
    case AfterContract => AtOpportunity(record)
    case AfterOpportunity => WritingBack(record, id)
  }

  function WorkerOf(s: World, w: nat): Worker {
    if w in s.workers then s.workers[w] else Idle
  }

  function At(s: World, w: nat, worker: Worker): World {
    s.(workers := s.workers[w := worker])
  }

  /** After a compare-and-set: on success the row is read back next, otherwise the worker gives up. */
  function Wrote(s: World, w: nat, r: Result<Row, LedgerError>, stage: Stage, id: nat): World {
    match r
    case Ok(row) => At(s, w, Reading(stage, row.attempt, id)).(row := Some(row))
    case Err(_) => At(s, w, Idle)
  }

  function MoveOf(s: World, w: nat, m: Move): World {
    var worker := WorkerOf(s, w);
    match m
    case Begin => if worker.Idle? then At(s, w, Loaded(UpsertStart(s.row))).(row := Some(UpsertStart(s.row))) else s
    case Abandon => At(s, w, Idle)
    case ResetBlocked =>
      if !worker.Loaded? then s
      else if worker.record.state == Blocked then Wrote(s, w, ResetRow(s.row, worker.record.attempt), AfterReset, 0)
      else At(s, w, if worker.record.state == Completed then Idle else Enter(worker.record))
    case Read =>
      if worker.Reading? && s.row.Some? then At(s, w, AfterRead(worker.stage, s.row.value, worker.id)) else s
    case FindCustomer(found) =>
      if worker.NeedsCustomer? && found != 0 then At(s, w, HasCustomer(worker.record, found, false)) else s
    case CreateCustomer(newId) =>
      if worker.NeedsCustomer? && newId != 0 then
        var id := s.customers.UnwrapOr(newId);
        At(s, w, HasCustomer(worker.record, id, true)).(customers := Some(id))
      else s
    case Fail(code) =>
      if worker.NeedsCustomer? || worker.NeedsContract? || worker.NeedsOpportunity? || worker.HasOpportunity? || worker.WritingBack? then
        match FailRow(s.row, worker.record.state, worker.record.attempt, code)
        case Ok(row) => At(s, w, Idle).(row := Some(row))
        case Err(_) => At(s, w, Idle)
      else s
    case AdvanceCustomer =>
      if worker.HasCustomer? then
        Wrote(s, w, AdvanceRow(s.row, Advance(Pending, CustomerReady, worker.record.attempt, worker.id, worker.created, 0, false)), AfterCustomer, 0)
      else s
    case CommitContract => if worker.NeedsContract? then At(s, w, HasContract(worker.record)) else s
    case AdvanceContract =>
      if worker.HasContract? then
        Wrote(s, w, AdvanceRow(s.row, Advance(CustomerReady, ContractReady, worker.record.attempt, 0, false, 0, false)), AfterContract, 0)
      else s
    case CreateOpportunity(newId) =>
      if worker.NeedsOpportunity? && newId != 0 then
        var id := s.opportunities.UnwrapOr(newId);
        At(s, w, HasOpportunity(worker.record, id, true)).(opportunities := Some(id))
      else s
    case AdvanceOpportunity =>
      if worker.HasOpportunity? then
        Wrote(s, w, AdvanceRow(s.row, Advance(worker.record.state, OpportunityReady, worker.record.attempt, 0, false, worker.id, worker.created)),
              AfterOpportunity, worker.id)
      else s
    case WriteBack => if worker.WritingBack? then At(s, w, Written(worker.record)) else s
    case Complete =>
      if worker.Written? then
        match AdvanceRow(s.row, Advance(worker.record.state, Completed, worker.record.attempt, 0, false, 0, false))
        case Ok(row) => At(s, w, Idle).(row := Some(row))
        case Err(_) => At(s, w, Idle)
      else s
  }

  function Run(s: World, moves: seq<(nat, Move)>): World
    decreases |moves|
  {
    if moves == [] then s else Run(MoveOf(s, moves[0].0, moves[0].1), moves[1..])
  }

  // ----- The invariant -----

  /** Ids are there from the state on that needs them. */
  predicate IdsPresent(row: Row) {
    && (row.state in {CustomerReady, ContractReady, OpportunityReady, Completed} ==> row.customer != 0)
    && (row.state in {OpportunityReady, Completed} ==> row.opportunity != 0)
  }

  predicate SameIds(a: Row, b: Row) {
    a.customer == b.customer && a.customerCreated == b.customerCreated
    && a.opportunity == b.opportunity && a.opportunityCreated == b.opportunityCreated
  }

  /** A snapshot is never ahead of the row, and with equal attempts it has the row's ids and state, unless the row was blocked since. */
  predicate Snapshot(record: Row, row: Row) {
    && IdsPresent(record) && record.attempt <= row.attempt
    && (record.customer != 0 ==> row.customer == record.customer)
    && (record.opportunity != 0 ==> row.opportunity == record.opportunity)
    && (record.attempt == row.attempt ==> SameIds(record, row) && (row.state == record.state || row.state == Blocked))
  }

  predicate Holds(s: World, record: Row) {
    && s.row.Some? && Snapshot(record, s.row.value)
    && (record.customer != 0 && record.customerCreated ==> s.customers == Some(record.customer))
  }

  predicate WorkerOk(s: World, worker: Worker) {
    match worker
    case Idle => true
    case Loaded(r) => Holds(s, r)
    case NeedsCustomer(r) => Holds(s, r) && r.state == Pending && r.customer == 0
    case HasCustomer(r, id, created) =>
      && Holds(s, r) && r.state == Pending && id != 0
      && (r.customer != 0 ==> id == r.customer && created == r.customerCreated)
      && (created ==> s.customers == Some(id))
    case NeedsContract(r) => Holds(s, r) && r.state == CustomerReady
    case HasContract(r) => Holds(s, r) && r.state == CustomerReady
    case NeedsOpportunity(r) => Holds(s, r) && r.state == ContractReady && r.opportunity == 0
    case HasOpportunity(r, id, _) => Holds(s, r) && r.state == ContractReady && id != 0 && s.opportunities == Some(id)
    case WritingBack(r, id) => Holds(s, r) && id != 0 && s.opportunities == Some(id)
    case Written(r) => Holds(s, r)
    case Reading(stage, attempt, id) =>
      && s.row.Some? && attempt <= s.row.value.attempt
      && (attempt == s.row.value.attempt ==> s.row.value.state in {Target(stage), Blocked})
      && (stage == AfterOpportunity ==> id != 0 && s.opportunities == Some(id))
  }

  /** The state a worker's own write put the row into. */
  function Target(stage: Stage): Phase {
    match stage
    case AfterReset => Pending
    case AfterCustomer => CustomerReady
    case AfterContract => ContractReady
    case AfterOpportunity => OpportunityReady
  }

  /** The row's ids are there when needed, and those created here are the CRM's. */
  predicate RowOk(s: World) {
    && s.customers != Some(0) && s.opportunities != Some(0)
    && (s.row.Some? ==>
          && IdsPresent(s.row.value)
          && (s.row.value.customer != 0 && s.row.value.customerCreated ==> s.customers == Some(s.row.value.customer))
          && (s.row.value.opportunity != 0 ==> s.opportunities == Some(s.row.value.opportunity)))
  }

  predicate Inv(s: World) {
    RowOk(s) && forall w :: w in s.workers ==> WorkerOk(s, s.workers[w])
  }

  /** Nothing recorded in a row is ever lost. */
  predicate RowKept(a: Row, b: Row) {
    && a.attempt <= b.attempt
    && (a.customer != 0 ==> b.customer == a.customer)
    && (a.opportunity != 0 ==> b.opportunity == a.opportunity)
    && (a.attempt == b.attempt ==> SameIds(a, b) && (b.state == a.state || b.state == Blocked))
  }

  /** Nor is what the CRM created. */
  predicate Kept(s: World, t: World) {
    && (s.customers.Some? ==> t.customers == s.customers)
    && (s.opportunities.Some? ==> t.opportunities == s.opportunities)
    && (s.row.Some? ==> t.row.Some? && RowKept(s.row.value, t.row.value))
  }

  lemma OthersOk(s: World, t: World, worker: Worker)
    requires WorkerOk(s, worker) && Kept(s, t)
    ensures WorkerOk(t, worker)
  {
    hide IdsPresent;
  }

  /** What a single move has to establish; the other workers are untouched. */
  predicate Fine(s: World, t: World, w: nat) {
    && Kept(s, t) && RowOk(t) && WorkerOk(t, WorkerOf(t, w))
    && t.workers.Keys <= s.workers.Keys + {w}
    && forall v :: v in s.workers && v != w ==> v in t.workers && t.workers[v] == s.workers[v]
  }

  /** Entering with the row itself. */
  lemma EnterFine(s: World, stage: Stage, id: nat)
    requires s.row.Some? && RowOk(s) && (stage == AfterOpportunity ==> id != 0 && s.opportunities == Some(id))
    ensures WorkerOk(s, AfterRead(stage, s.row.value, id))
  {
  }

  lemma LoadedEnterFine(s: World, record: Row)
    requires RowOk(s) && Holds(s, record) && record.state !in {Completed, Blocked}
    ensures WorkerOk(s, Enter(record))
  {
  }

  lemma BeginMoves(s: World, w: nat, m: Move)
    requires Inv(s) && (m.Begin? || m.Abandon?)
    ensures Fine(s, MoveOf(s, w, m), w)
  {
    assert WorkerOk(s, WorkerOf(s, w));
  }

  lemma EnterMoves(s: World, w: nat, m: Move)
    requires Inv(s) && (m.ResetBlocked? || m.Read?)
    ensures Fine(s, MoveOf(s, w, m), w)
  {
    hide Enter, AfterRead;
    var worker := WorkerOf(s, w);
    assert WorkerOk(s, worker);
    if m.Read? && worker.Reading? {
      EnterFine(s, worker.stage, worker.id);
    }
    if m.ResetBlocked? && worker.Loaded? && worker.record.state !in {Completed, Blocked} {
      LoadedEnterFine(s, worker.record);
    }
  }

  lemma CustomerMoves(s: World, w: nat, m: Move)
    requires Inv(s) && (m.FindCustomer? || m.CreateCustomer? || m.AdvanceCustomer?)
    ensures Fine(s, MoveOf(s, w, m), w)
  {
    assert WorkerOk(s, WorkerOf(s, w));
  }

  lemma ContractMoves(s: World, w: nat, m: Move)
    requires Inv(s) && (m.CommitContract? || m.AdvanceContract? || m.Fail?)
    ensures Fine(s, MoveOf(s, w, m), w)
  {
    assert WorkerOk(s, WorkerOf(s, w));
  }

  lemma FinalMoves(s: World, w: nat, m: Move)
    requires Inv(s) && (m.WriteBack? || m.Complete?)
    ensures Fine(s, MoveOf(s, w, m), w)
  {
    assert WorkerOk(s, WorkerOf(s, w));
  }

  lemma OpportunityMoves(s: World, w: nat, m: Move)
    requires Inv(s) && (m.CreateOpportunity? || m.AdvanceOpportunity?)
    ensures Fine(s, MoveOf(s, w, m), w)
  {
    assert WorkerOk(s, WorkerOf(s, w));
  }

  /** One move of any worker keeps the invariant and loses nothing. */
  lemma MoveKeeps(s: World, w: nat, m: Move)
    requires Inv(s)
    ensures Inv(MoveOf(s, w, m)) && Kept(s, MoveOf(s, w, m))
  {
    hide MoveOf, Kept, WorkerOk, RowOk;
    var t := MoveOf(s, w, m);
    match m {
      case Begin => BeginMoves(s, w, m);
      case Abandon => BeginMoves(s, w, m);
      case ResetBlocked => EnterMoves(s, w, m);
      case Read => EnterMoves(s, w, m);
      case FindCustomer(_) => CustomerMoves(s, w, m);
      case CreateCustomer(_) => CustomerMoves(s, w, m);
      case AdvanceCustomer => CustomerMoves(s, w, m);
      case CommitContract => ContractMoves(s, w, m);
      case AdvanceContract => ContractMoves(s, w, m);
      case Fail(_) => ContractMoves(s, w, m);
      case CreateOpportunity(_) => OpportunityMoves(s, w, m);
      case AdvanceOpportunity => OpportunityMoves(s, w, m);
      case _ => FinalMoves(s, w, m);
    }
    forall v | v in t.workers ensures WorkerOk(t, t.workers[v]) {
      if v != w {
        OthersOk(s, t, s.workers[v]);
      }
    }
  }

  // ----- Over runs -----

  lemma KeptTwice(s: World, t: World, u: World)
    requires Kept(s, t) && Kept(t, u)
    ensures Kept(s, u)
  {
  }

  lemma KeptSelf(s: World)
    ensures Kept(s, s)
  {
  }

  /**
    In every run of any workers, crashing and stale ones included: the customer id is there from
    CUSTOMER_READY on and the opportunity id from OPPORTUNITY_READY on, no recorded id changes, and
    the CRM has created at most the one customer and the one opportunity the ledger records.
   */
  lemma {:induction false} RunKeeps(s: World, moves: seq<(nat, Move)>)
    requires Inv(s)
    ensures Inv(Run(s, moves)) && Kept(s, Run(s, moves))
    decreases |moves|
  {
    hide Inv, Kept, MoveOf;
    if moves == [] {
      KeptSelf(s);
    } else {
      var t := MoveOf(s, moves[0].0, moves[0].1);
      MoveKeeps(s, moves[0].0, moves[0].1);
      RunKeeps(t, moves[1..]);
      KeptTwice(s, t, Run(t, moves[1..]));
    }
  }

  /** Of two callers that read the same attempt, the second cannot advance after the first did, whatever happens in between. */
  lemma CannotBothAdvance(s: World, w: nat, m: Move, a: Advance, moves: seq<(nat, Move)>, b: Advance)
    requires Inv(s) && AdvanceRow(s.row, a).Ok? && MoveOf(s, w, m).row == Some(AdvanceRow(s.row, a).value)
    requires b.attempt == a.attempt
    ensures AdvanceRow(Run(MoveOf(s, w, m), moves).row, b).Err?
  {
    hide Inv, Run, MoveOf;
    MoveKeeps(s, w, m);
    RunKeeps(MoveOf(s, w, m), moves);
  }

  // ----- Completed rows -----

  /** A worker that read a row completed by another one back as its own. */
  predicate ReadForeignCompletion(worker: Worker) {
    worker.WritingBack? && worker.record.state == Completed
  }

  /** A completed row is left in exactly one way: such a worker fails to write back and blocks the row. */
  lemma CompletedLeft(s: World, w: nat, m: Move)
    requires Inv(s) && s.row.Some? && s.row.value.state == Completed
    ensures MoveOf(s, w, m).row.value.state != Completed
            <==> m.Fail? && ReadForeignCompletion(WorkerOf(s, w)) && WorkerOf(s, w).record.attempt == s.row.value.attempt
  {
    hide Enter, AfterRead;
    assert WorkerOk(s, WorkerOf(s, w));
  }

  /** A read-back that still finds the attempt of the worker's own write. */
  predicate OwnRead(s: World, w: nat, m: Move) {
    m.Read? && WorkerOf(s, w).Reading? && s.row.Some? ==> s.row.value.attempt == WorkerOf(s, w).attempt
  }

  predicate OwnReads(s: World, moves: seq<(nat, Move)>)
    decreases |moves|
  {
    moves == [] || (OwnRead(s, moves[0].0, moves[0].1) && OwnReads(MoveOf(s, moves[0].0, moves[0].1), moves[1..]))
  }

  predicate NoForeignCompletion(s: World) {
    forall w :: w in s.workers ==> !ReadForeignCompletion(s.workers[w])
  }

  lemma OwnMove(s: World, w: nat, m: Move)
    requires Inv(s) && NoForeignCompletion(s) && OwnRead(s, w, m)
    ensures NoForeignCompletion(MoveOf(s, w, m))
  {
    assert WorkerOk(s, WorkerOf(s, w));
  }

  /** When every read-back finds the worker's own write, COMPLETED is absorbing. */
  lemma {:induction false} CompletedStays(s: World, moves: seq<(nat, Move)>)
    requires Inv(s) && NoForeignCompletion(s) && OwnReads(s, moves)
    requires s.row.Some? && s.row.value.state == Completed
    ensures Run(s, moves).row.Some? && Run(s, moves).row.value.state == Completed
    decreases |moves|
  {
    hide Inv, MoveOf, Kept;
    if moves != [] {
      var (w, m) := moves[0];
      MoveKeeps(s, w, m);
      KeepsRow(s, MoveOf(s, w, m));
      CompletedLeft(s, w, m);
      OwnMove(s, w, m);
      CompletedStays(MoveOf(s, w, m), moves[1..]);
    }
  }

  lemma KeepsRow(s: World, t: World)
    requires Kept(s, t) && s.row.Some?
    ensures t.row.Some?
  {
  }

  /** Without that, it is not: a second worker completes between a worker's write and its read-back. */
  lemma CompletedCanBeBlocked() returns (s: World, before: seq<(nat, Move)>, after: seq<(nat, Move)>)
    ensures s == World(None, None, None, map[])
    ensures Run(s, before).row.Some? && Run(s, before).row.value.state == Completed
    ensures Run(s, before + after).row.Some? && Run(s, before + after).row.value.state == Blocked
  {
    hide Run, MoveOf;
    s := World(None, None, None, map[]);
    var customer, a := FirstGetsContract(s);
    var opportunity, b := FirstGetsOpportunity(a);
    var second, c := SecondCompletes(b);
    var last, d := FirstBlocks(c);
    before, after := customer + opportunity + second, last;
    RunConcat(s, customer, opportunity);
    RunConcat(s, customer + opportunity, second);
    RunConcat(s, before, last);
  }

  lemma FirstGetsContract(s: World) returns (moves: seq<(nat, Move)>, t: World)
    requires s == World(None, None, None, map[])
    ensures t == Run(s, moves) && WorkerOf(t, 1) == Idle
    ensures t.row == Some(Row(CustomerReady, 1, 7, true, 0, false, "")) && WorkerOf(t, 0) == NeedsContract(t.row.value)
    ensures t.opportunities == None
  {
    moves := [(0, Begin), (0, ResetBlocked), (0, CreateCustomer(7)), (0, AdvanceCustomer), (0, Read)];
    t := RunFive(s, moves);
  }

  lemma FirstGetsOpportunity(s: World) returns (moves: seq<(nat, Move)>, t: World)
    requires s.row == Some(Row(CustomerReady, 1, 7, true, 0, false, "")) && WorkerOf(s, 0) == NeedsContract(s.row.value)
    requires s.opportunities == None && WorkerOf(s, 1) == Idle
    ensures t == Run(s, moves) && WorkerOf(t, 1) == Idle
    ensures t.row == Some(Row(OpportunityReady, 3, 7, true, 9, true, "")) && WorkerOf(t, 0) == Reading(AfterOpportunity, 3, 9)
  {
    moves := [(0, CommitContract), (0, AdvanceContract), (0, Read), (0, CreateOpportunity(9)), (0, AdvanceOpportunity)];
    t := RunFive(s, moves);
  }

  lemma SecondCompletes(s: World) returns (moves: seq<(nat, Move)>, t: World)
    requires s.row == Some(Row(OpportunityReady, 3, 7, true, 9, true, "")) && WorkerOf(s, 1) == Idle
    ensures t == Run(s, moves) && WorkerOf(t, 0) == WorkerOf(s, 0)
    ensures t.row == Some(Row(Completed, 5, 7, true, 9, true, ""))
  {
    moves := [(1, Begin), (1, ResetBlocked), (1, WriteBack), (1, Complete), (1, Abandon)];
    t := RunFive(s, moves);
  }

  lemma FirstBlocks(s: World) returns (moves: seq<(nat, Move)>, t: World)
    requires s.row == Some(Row(Completed, 5, 7, true, 9, true, "")) && WorkerOf(s, 0) == Reading(AfterOpportunity, 3, 9)
    ensures t == Run(s, moves) && t.row.Some? && t.row.value.state == Blocked
  {
    moves := [(0, Read), (0, Fail("CRM_REJECTED")), (0, Abandon), (0, Abandon), (0, Abandon)];
    t := RunFive(s, moves);
  }

  lemma RunFive(s: World, moves: seq<(nat, Move)>) returns (t: World)
    requires |moves| == 5
    ensures t == Run(s, moves)
    ensures t == MoveOf(MoveOf(MoveOf(MoveOf(MoveOf(s, moves[0].0, moves[0].1), moves[1].0, moves[1].1),
                       moves[2].0, moves[2].1), moves[3].0, moves[3].1), moves[4].0, moves[4].1)
  {
    hide MoveOf;
    t := s;
    for i := 0 to 5
      invariant Run(s, moves) == Run(t, moves[i..])
      invariant i == 1 ==> t == MoveOf(s, moves[0].0, moves[0].1)
      invariant i == 2 ==> t == MoveOf(MoveOf(s, moves[0].0, moves[0].1), moves[1].0, moves[1].1)
      invariant i == 3 ==> t == MoveOf(MoveOf(MoveOf(s, moves[0].0, moves[0].1), moves[1].0, moves[1].1), moves[2].0, moves[2].1)
      invariant i == 4 ==> t == MoveOf(MoveOf(MoveOf(MoveOf(s, moves[0].0, moves[0].1), moves[1].0, moves[1].1),
                                            moves[2].0, moves[2].1), moves[3].0, moves[3].1)
      invariant i == 5 ==> t == MoveOf(MoveOf(MoveOf(MoveOf(MoveOf(s, moves[0].0, moves[0].1), moves[1].0, moves[1].1),
                                                  moves[2].0, moves[2].1), moves[3].0, moves[3].1), moves[4].0, moves[4].1)
      invariant i == 0 ==> t == s
    {
      RunNext(t, moves[i..]);
      t := MoveOf(t, moves[i].0, moves[i].1);
    }
  }

  lemma RunNext(s: World, moves: seq<(nat, Move)>)
    requires moves != []
    ensures Run(s, moves) == Run(MoveOf(s, moves[0].0, moves[0].1), moves[1..])
  {
  }

  lemma {:induction false} RunConcat(s: World, a: seq<(nat, Move)>, b: seq<(nat, Move)>)
    ensures Run(s, a + b) == Run(Run(s, a), b)
    decreases |a|
  {
    hide MoveOf;
    if a == [] {
      assert a + b == b;
    } else {
      assert (a + b)[1..] == a[1..] + b;
      RunConcat(MoveOf(s, a[0].0, a[0].1), a[1..], b);
    }
  }

  // ----- Progress -----

  /** A worker left alone, with every call succeeding, completes the row from wherever it stands. */
  lemma SoloCompletes(s: World, w: nat, customer: nat, opportunity: nat) returns (moves: seq<(nat, Move)>)
    requires Inv(s) && WorkerOf(s, w).Idle? && customer != 0 && opportunity != 0
    ensures forall k :: 0 <= k < |moves| ==> moves[k].0 == w
    ensures Run(s, moves).row.Some? && Run(s, moves).row.value.state == Completed
  {
    hide Inv, Enter;
    var begun := MoveOf(s, w, Begin);
    MoveKeeps(s, w, Begin);
    var state := begun.row.value.state;
    if state == Completed {
      moves := [(w, Begin)];
    } else {
      var entered := MoveOf(begun, w, ResetBlocked);
      MoveKeeps(begun, w, ResetBlocked);
      if state == Blocked {
        var read := MoveOf(entered, w, Read);
        MoveKeeps(entered, w, Read);
        var rest := FromEntered(read, w, customer, opportunity);
        moves := [(w, Begin), (w, ResetBlocked), (w, Read)] + rest;
        RunThree(s, moves, rest);
      } else {
        var rest := FromEntered(entered, w, customer, opportunity);
        moves := [(w, Begin), (w, ResetBlocked)] + rest;
        RunTwo(s, moves, rest);
      }
    }
  }

  lemma RunTwo(s: World, moves: seq<(nat, Move)>, rest: seq<(nat, Move)>)
    requires |moves| == 2 + |rest| && moves[2..] == rest
    ensures Run(s, moves) == Run(MoveOf(MoveOf(s, moves[0].0, moves[0].1), moves[1].0, moves[1].1), rest)
  {
    hide MoveOf;
    RunNext(s, moves);
    RunNext(MoveOf(s, moves[0].0, moves[0].1), moves[1..]);
    assert moves[1..][1..] == rest;
  }

  lemma RunThree(s: World, moves: seq<(nat, Move)>, rest: seq<(nat, Move)>)
    requires |moves| == 3 + |rest| && moves[3..] == rest
    ensures Run(s, moves) == Run(MoveOf(MoveOf(MoveOf(s, moves[0].0, moves[0].1), moves[1].0, moves[1].1),
                                       moves[2].0, moves[2].1), rest)
  {
    hide MoveOf;
    RunTwo(s, moves, moves[2..]);
    RunNext(MoveOf(MoveOf(s, moves[0].0, moves[0].1), moves[1].0, moves[1].1), moves[2..]);
    assert moves[2..][1..] == rest;
  }

  /** The worker holds the row itself and is where the code goes with it. */
  predicate EnteredWith(s: World, w: nat) {
    Inv(s) && s.row.Some? && WorkerOf(s, w) == Enter(s.row.value) && s.row.value.state !in {Completed, Blocked}
  }

  /** One phase further. */
  predicate OneAhead(s: World, w: nat, moves: seq<(nat, Move)>)
    requires s.row.Some?
  {
    var t := Run(s, moves);
    && (forall k :: 0 <= k < |moves| ==> moves[k].0 == w)
    && t.row.Some? && Some(t.row.value.state) == NextPhase(s.row.value.state)
    && (s.row.value.state != OpportunityReady ==> EnteredWith(t, w))
  }

  lemma FromPending(s: World, w: nat, customer: nat, opportunity: nat) returns (moves: seq<(nat, Move)>)
    requires EnteredWith(s, w) && customer != 0 && opportunity != 0 && s.row.value.state == Pending
    ensures OneAhead(s, w, moves)
  {
    hide Inv;
    RowKnown(s);
    if s.row.value.customer == 0 {
      moves := [(w, CreateCustomer(customer)), (w, AdvanceCustomer), (w, Read)];
      RunThree(s, moves, []);
    } else {
      moves := [(w, AdvanceCustomer), (w, Read)];
      RunTwo(s, moves, []);
    }
    RunKeeps(s, moves);
  }

  lemma FromCustomer(s: World, w: nat, customer: nat, opportunity: nat) returns (moves: seq<(nat, Move)>)
    requires EnteredWith(s, w) && customer != 0 && opportunity != 0 && s.row.value.state == CustomerReady
    ensures OneAhead(s, w, moves)
  {
    hide Inv;
    RowKnown(s);
    moves := [(w, CommitContract), (w, AdvanceContract), (w, Read)];
    RunThree(s, moves, []);
    RunKeeps(s, moves);
  }

  lemma FromCreated(s: World, w: nat) returns (moves: seq<(nat, Move)>)
    requires Inv(s) && s.row.Some? && s.row.value.state == ContractReady && WorkerOf(s, w).HasOpportunity?
    requires WorkerOf(s, w).record == s.row.value
    ensures OneAhead(s, w, moves)
  {
    hide Inv;
    assert WorkerOf(s, w).id != 0 by { WorkerKnown(s, w); }
    moves := [(w, AdvanceOpportunity), (w, Read)];
    RunTwo(s, moves, []);
    RunKeeps(s, moves);
    WorkerKnown(Run(s, moves), w);
    WorkerKnown(s, w);
    RowKnown(Run(s, moves));
  }

  lemma WorkerKnown(s: World, w: nat)
    requires Inv(s)
    ensures WorkerOk(s, WorkerOf(s, w))
  {
  }

  lemma FromContract(s: World, w: nat, customer: nat, opportunity: nat) returns (moves: seq<(nat, Move)>)
    requires EnteredWith(s, w) && customer != 0 && opportunity != 0 && s.row.value.state == ContractReady
    ensures OneAhead(s, w, moves)
  {
    hide Inv;
    RowKnown(s);
    if s.row.value.opportunity == 0 {
      var created := MoveOf(s, w, CreateOpportunity(opportunity));
      MoveKeeps(s, w, CreateOpportunity(opportunity));
      var rest := FromCreated(created, w);
      moves := [(w, CreateOpportunity(opportunity))] + rest;
      RunNext(s, moves);
      assert moves[1..] == rest;
    } else {
      moves := FromCreated(s, w);
    }
  }

  lemma FromOpportunity(s: World, w: nat, customer: nat, opportunity: nat) returns (moves: seq<(nat, Move)>)
    requires EnteredWith(s, w) && customer != 0 && opportunity != 0 && s.row.value.state == OpportunityReady
    ensures OneAhead(s, w, moves)
  {
    hide Inv;
    RowKnown(s);
    moves := [(w, WriteBack), (w, Complete)];
    RunTwo(s, moves, []);
  }

  lemma FromEntered(s: World, w: nat, customer: nat, opportunity: nat) returns (moves: seq<(nat, Move)>)
    requires EnteredWith(s, w) && customer != 0 && opportunity != 0
    ensures forall k :: 0 <= k < |moves| ==> moves[k].0 == w
    ensures Run(s, moves).row.Some? && Run(s, moves).row.value.state == Completed
    decreases match s.row.value.state case Pending => 3 case CustomerReady => 2 case ContractReady => 1 case _ => 0
  {
    hide Inv, Enter;
    match s.row.value.state {
      case Pending => moves := FromPending(s, w, customer, opportunity);
      case CustomerReady => moves := FromCustomer(s, w, customer, opportunity);
      case ContractReady => moves := FromContract(s, w, customer, opportunity);
      case _ => moves := FromOpportunity(s, w, customer, opportunity);
    }
    var t := Run(s, moves);
    if s.row.value.state != OpportunityReady {
      var rest := FromEntered(t, w, customer, opportunity);
      RunConcat(s, moves, rest);
      moves := moves + rest;
    }
  }

  lemma RowKnown(s: World)
    requires Inv(s) && s.row.Some?
    ensures IdsPresent(s.row.value) && s.customers != Some(0) && s.opportunities != Some(0)
    ensures s.row.value.opportunity != 0 ==> s.opportunities == Some(s.row.value.opportunity)
  {
  }
}

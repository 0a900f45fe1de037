/**
  What holds over every run of releases, retries, recoveries and workers on one item's downstream
  commands, with stale and crashing workers.
 */
module TargetRuns {
  import opened Wrappers
  import opened Targets

  /** The stored tasks, and as history: every request sent, and the payload first stored for each command. */
  datatype Ledger = Ledger(tasks: Tasks, sent: seq<Archived>, frozen: map<CommandId, string>)

  /**
    A worker between two calls: with the task it claimed, with its request frozen, with the request
    sent, and with the outcome still to be saved.
   */
  datatype Worker = Idle | Claimed(task: Task, projectDone: bool) | Ready(task: Task) | Sent(task: Task) | Finishing(task: Task)

  /** A release somebody has asked for, checked against the tasks of that moment and not queued yet. */
  datatype Request = NoRequest | Request(target: Target, version: nat, phase: Phase, plan: Plan)

  datatype World = World(ledger: Ledger, workers: map<nat, Worker>, requests: map<nat, Request>)

  datatype Refusal = Later | Invalid | Answered(status: int, code: string)

  datatype Move =
    | Ask(target: Target, version: nat, phase: Phase, payload: string, ok: bool, now: int)
    | Enqueue(allowed: bool, now: int)
    | Claim(now: int)
    | Freeze(payload: string, stored: bool, now: int)
    | GiveUp(refusal: Refusal, now: int)
    | Send
    | Reply(receipt: string)
    | Finish(stored: bool, now: int)
    | Crash

  function WorkerOf(s: World, w: nat): Worker {
    if w in s.workers then s.workers[w] else Idle
  }

  function RequestOf(s: World, r: nat): Request {
    if r in s.requests then s.requests[r] else NoRequest
  }

  function At(s: World, w: nat, worker: Worker): World {
    s.(workers := s.workers[w := worker])
  }

  /** A task is written to the store. */
  function Store(l: Ledger, t: Task): Ledger {
    l.(tasks := l.tasks[Index(t.target) := t],
       frozen := if t.payload != "" && t.command !in l.frozen then l.frozen[t.command := t.payload] else l.frozen)
  }

  /** How a release is prepared from the tasks as they are. */
  function Prepare(tasks: Tasks, m: Move): Request
    requires m.Ask?
  {
    var t := tasks[Index(m.target)];
    if !Askable(m.target, m.phase) then NoRequest
    else if m.target == PROJECT && t.state == Blocked then
      if t.version == m.version && RetryableProject(t, m.now) && t.command == Stable(PROJECT, RELEASE) && m.ok then
        Request(m.target, m.version, m.phase, Retry(t))
      else NoRequest
    else if m.target == FINANCE && m.phase == RELEASE && t.state == Blocked then
      if t.version == m.version && RecoverableFinance(t) && tasks[0].state == Complete && m.payload != "" && m.ok then
        Request(m.target, m.version, m.phase, Recovery(t, m.payload))
      else NoRequest
    else Request(m.target, m.version, m.phase, Plain)
  }

  function Enqueued(l: Ledger, request: Request, allowed: bool, now: int): Ledger
    requires request.Request?
  {
    match Queue(l.tasks[Index(request.target)], request.version, request.phase, request.plan, allowed, now)
    case Ok(next) => Store(l, next)
    case Err(_) => l
  }

  function Failed(t: Task, refusal: Refusal, now: int): Task {
    match refusal
    case Later =>
      t.(leaseUntil := 0, state := Waiting, nextAttempt := now + (if t.attempts < 20 then t.attempts else 20) * 15)
    case Invalid => t.(leaseUntil := 0, state := Blocked)
    case Answered(status, code) => t.(leaseUntil := 0, state := Blocked, status := status, code := code, rejectedAt := Some(now))
  }

  /** What a well-formed reply makes of the task. */
  function Succeeded(t: Task, receipt: string): Task {
    t.(leaseUntil := 0, receipt := receipt, state := if t.target == FINANCE && t.phase == PREPARE then Prepared else Complete)
  }

  /** The task as it is stored, its version counted up. */
  function Counted(l: Ledger, t: Task): Task {
    t.(version := l.tasks[Index(t.target)].version + 1)
  }

  /** The request is stored before anything is sent; a finance release waits for the project. */
  function FreezeTask(l: Ledger, t: Task, projectDone: bool, m: Move): (Ledger, Worker)
    requires m.Freeze?
  {
    if t.payload != "" || t.target == REPORT then (l, Ready(t))
    else if t.target == FINANCE && t.phase == RELEASE && !projectDone then (l, Finishing(Failed(t, Later, m.now)))
    else if m.payload == "" then (l, Claimed(t, projectDone))
    else
      var frozen := t.(payload := m.payload);
      if m.stored && SaveFits(l.tasks[Index(t.target)], frozen, m.now) then (Store(l, Counted(l, frozen)), Ready(frozen))
      else (l, Finishing(Failed(frozen, Later, m.now)))
  }

  /** What a worker's move makes of the ledger and of the worker. */
  function Work(l: Ledger, worker: Worker, m: Move): (Ledger, Worker) {
    match m
    case Claim(now) =>
      if worker.Idle? && FirstClaimable(l.tasks, now).Some? then
        var t := ClaimedTask(l.tasks[FirstClaimable(l.tasks, now).value], now);
        (Store(l, t), Claimed(t, l.tasks[0].state == Complete))
      else (l, worker)
    case Freeze(_, _, _) => if worker.Claimed? then FreezeTask(l, worker.task, worker.projectDone, m) else (l, worker)
    case GiveUp(refusal, now) =>
      (l, if worker.Claimed? || worker.Ready? || worker.Sent? then Finishing(Failed(worker.task, refusal, now)) else worker)
    case Send =>
      if worker.Ready? then
        (if worker.task.payload == "" then l else l.(sent := l.sent + [Archived(worker.task.command, worker.task.payload)]), Sent(worker.task))
      else (l, worker)
    case Reply(receipt) =>
      (l, if !worker.Sent? then worker
          else if receipt == "" || (worker.task.receipt != "" && worker.task.receipt != receipt) then Finishing(Failed(worker.task, Invalid, 0))
          else Finishing(Succeeded(worker.task, receipt)))
    case Finish(stored, now) =>
      if !worker.Finishing? then (l, worker)
      else if stored && SaveFits(l.tasks[Index(worker.task.target)], worker.task, now) then (Store(l, Counted(l, worker.task)), Idle)
      else (l, Idle)
    case _ => (l, Idle)
  }

  function Next(s: World, a: nat, m: Move): World {
    match m
    case Ask(_, _, _, _, _, _) => s.(requests := s.requests[a := Prepare(s.ledger.tasks, m)])
    case Enqueue(allowed, now) =>
      if RequestOf(s, a).NoRequest? then s
      else s.(ledger := Enqueued(s.ledger, RequestOf(s, a), allowed, now), requests := s.requests[a := NoRequest])
    case _ =>
      var (l, worker) := Work(s.ledger, WorkerOf(s, a), m);
      At(s, a, worker).(ledger := l)
  }

  function Run(s: World, moves: seq<(nat, Move)>): World
    decreases |moves|
  {
    if moves == [] then s else Run(Next(s, moves[0].0, moves[0].1), moves[1..])
  }

  // ----- The invariant -----

  function ReleaseCommand(generation: nat): CommandId {
    if generation == 0 then Stable(FINANCE, RELEASE) else Generation(generation)
  }

  /** The command of a task is fixed by its phase and generation; a finance release has a receipt. */
  predicate TaskOk(t: Task) {
    && (t.payload != "" ==> t.command != NoCommand)
    && (t.phase == NoPhase ==> t.command == NoCommand && t.receipt == "" && t.state in {WaitingRelease, NotApplicable, Blocked})
    && (if t.target == FINANCE then
          && (t.phase == PREPARE ==> t.command == Stable(FINANCE, PREPARE) && t.state != Complete)
          && (t.phase == RELEASE ==> t.receipt != "" && t.command == ReleaseCommand(t.generation))
          && (t.phase != RELEASE ==> t.generation == 0)
          && |t.history| == t.generation
          && (forall i :: 0 <= i < |t.history| ==> t.history[i].command == ReleaseCommand(i))
        else
          && t.generation == 0 && t.phase != PREPARE
          && (t.phase == RELEASE ==> t.command == Stable(t.target, RELEASE))
          && (forall i :: 0 <= i < |t.history| ==> t.history[i].command == t.command)
          && (t.target == REPORT ==> t.state != Queued))
  }

  /** The commands a task may have frozen a payload for so far. */
  predicate Issued(t: Task, c: CommandId) {
    match c
    case NoCommand => false
    case Stable(target, phase) =>
      target == t.target && if phase == PREPARE then target == FINANCE && t.phase != NoPhase else phase == RELEASE && t.phase == RELEASE
    case Generation(n) => t.target == FINANCE && t.phase == RELEASE && 0 < n <= t.generation
  }

  predicate Stored(frozen: map<CommandId, string>, c: CommandId, payload: string) {
    c in frozen && frozen[c] == payload
  }

  /** A task's current and archived payloads are the frozen ones; without a payload nothing is frozen for its command. */
  predicate PayloadsOk(frozen: map<CommandId, string>, t: Task) {
    && (if t.payload != "" then Stored(frozen, t.command, t.payload) else t.command !in frozen)
    && forall i :: 0 <= i < |t.history| ==> Stored(frozen, t.history[i].command, t.history[i].payload)
  }

  /** A finance release has a frozen request, and is complete, only once the project is complete. */
  predicate FinanceAfterProject(tasks: Tasks, t: Task) {
    t.target == FINANCE && t.phase == RELEASE && (t.payload != "" || t.state == Complete) ==> tasks[0].state == Complete
  }

  predicate LedgerOk(l: Ledger) {
    && (forall i :: 0 <= i < 3 ==> TaskOk(l.tasks[i]) && PayloadsOk(l.frozen, l.tasks[i]) && FinanceAfterProject(l.tasks, l.tasks[i]))
    && (forall c :: c in l.frozen ==> l.frozen[c] != "" && (Issued(l.tasks[0], c) || Issued(l.tasks[1], c) || Issued(l.tasks[2], c)))
    && (forall i :: 0 <= i < |l.sent| ==> Stored(l.frozen, l.sent[i].command, l.sent[i].payload))
  }

  /** A worker of the current epoch holds the running task; others are stale. */
  predicate Holds(l: Ledger, t: Task) {
    var current := l.tasks[Index(t.target)];
    && t.epoch <= current.epoch
    && (t.epoch == current.epoch ==>
          && current.state == Running && t.phase == current.phase && t.command == current.command
          && t.generation == current.generation && t.history == current.history
          && (current.receipt != "" ==> t.receipt == current.receipt)
          && (t.payload == current.payload || (current.payload == "" && t.payload != "")))
  }

  predicate Sendable(l: Ledger, t: Task) {
    && Holds(l, t) && TaskOk(t) && (t.payload != "" ==> Stored(l.frozen, t.command, t.payload)) && FinanceAfterProject(l.tasks, t)
    && (t.epoch == l.tasks[Index(t.target)].epoch ==> t.payload == l.tasks[Index(t.target)].payload)
    && t.state == Running
  }

  predicate WorkerOk(l: Ledger, worker: Worker) {
    match worker
    case Idle => true
    case Claimed(t, projectDone) => Sendable(l, t) && (projectDone ==> l.tasks[0].state == Complete)
    case Ready(t) => Sendable(l, t) && (t.target == FINANCE ==> t.payload != "")
    case Sent(t) => Sendable(l, t) && (t.target == FINANCE ==> t.payload != "")
    case Finishing(t) => Holds(l, t) && TaskOk(t) && FinanceAfterProject(l.tasks, t)
  }

  /** A prepared retry or recovery still stands on the task it was prepared from, unless that has a newer version. */
  predicate RequestOk(tasks: Tasks, request: Request) {
    match request
    case NoRequest => true
    case Request(target, version, phase, plan) =>
      && Askable(target, phase)
      && match plan
         case Plain => true
         case Retry(base) =>
           && target == PROJECT && base.target == PROJECT && phase == RELEASE && base.phase == RELEASE && base.payload != ""
           && version == base.version <= tasks[0].version && (base.version == tasks[0].version ==> base == tasks[0])
         case Recovery(base, payload) =>
           && target == FINANCE && base.target == FINANCE && phase == RELEASE && base.phase == RELEASE && base.payload != ""
           && payload != "" && tasks[0].state == Complete
           && version == base.version <= tasks[1].version && (base.version == tasks[1].version ==> base == tasks[1])
  }

  predicate Active(workers: map<nat, Worker>, w: nat) {
    w in workers && !workers[w].Idle?
  }

  /** No two workers share a target and an epoch. */
  ghost predicate Apart(workers: map<nat, Worker>) {
    forall v, w :: Active(workers, v) && Active(workers, w) && v != w && workers[v].task.target == workers[w].task.target ==>
      workers[v].task.epoch != workers[w].task.epoch
  }

  ghost predicate Inv(s: World) {
    && LedgerOk(s.ledger) && Apart(s.workers)
    && (forall w :: w in s.workers ==> WorkerOk(s.ledger, s.workers[w]))
    && (forall r :: r in s.requests ==> RequestOk(s.ledger.tasks, s.requests[r]))
  }

  // ----- What a step may do to the ledger -----

  /** A task after a write: versions and epochs grow, receipts and completion stay. */
  predicate Successor(a: Task, b: Task) {
    && b.target == a.target && b.version > a.version && b.epoch >= a.epoch
    && (a.receipt != "" ==> b.receipt == a.receipt)
    && (a.state == Complete ==> b.state == Complete)
  }

  predicate Grown(l: Ledger, k: Ledger) {
    && (forall c :: c in l.frozen ==> Stored(k.frozen, c, l.frozen[c]))
    && l.sent <= k.sent
    && forall i :: 0 <= i < 3 ==> k.tasks[i] == l.tasks[i] || Successor(l.tasks[i], k.tasks[i])
  }

  /** The worker's task is untouched, has only counted its version up, or is ahead of the worker now. */
  predicate Passed(l: Ledger, k: Ledger, worker: Worker) {
    worker.Idle? ||
      var i := Index(worker.task.target);
      k.tasks[i] == l.tasks[i] || k.tasks[i] == l.tasks[i].(version := k.tasks[i].version) || k.tasks[i].epoch > worker.task.epoch
  }

  lemma FinanceStays(l: Ledger, k: Ledger, task: Task)
    requires Grown(l, k) && FinanceAfterProject(l.tasks, task)
    ensures FinanceAfterProject(k.tasks, task)
  {
  }

  lemma WorkerStays(l: Ledger, k: Ledger, worker: Worker)
    requires WorkerOk(l, worker) && Grown(l, k) && Passed(l, k, worker)
    ensures WorkerOk(k, worker)
  {
    hide TaskOk, FinanceAfterProject;
    if !worker.Idle? {
      FinanceStays(l, k, worker.task);
    }
  }

  lemma RequestStays(l: Ledger, k: Ledger, request: Request)
    requires RequestOk(l.tasks, request) && Grown(l, k)
    ensures RequestOk(k.tasks, request)
  {
  }

  lemma CommandsDiffer(a: Task, b: Task)
    requires TaskOk(a) && TaskOk(b) && a.target != b.target && a.command != NoCommand
    ensures a.command != b.command
  {
  }

  /** What a written task has to satisfy for the ledger to stay in order. */
  ghost predicate Writable(l: Ledger, t: Task) {
    var current := l.tasks[Index(t.target)];
    && Successor(current, t) && TaskOk(t) && PayloadsOk(Store(l, t).frozen, t) && FinanceAfterProject(Store(l, t).tasks, t)
    && (t.payload != "" ==> Issued(t, t.command))
    && forall c :: Issued(current, c) ==> Issued(t, c)
  }

  lemma OtherPayloads(l: Ledger, t: Task, u: Task)
    requires TaskOk(t) && TaskOk(u) && u.target != t.target && PayloadsOk(l.frozen, u)
    ensures PayloadsOk(Store(l, t).frozen, u)
  {
    if t.payload != "" && t.command !in l.frozen {
      CommandsDiffer(t, u);
    }
  }

  lemma StoreKeeps(l: Ledger, t: Task)
    requires LedgerOk(l) && Writable(l, t)
    ensures LedgerOk(Store(l, t)) && Grown(l, Store(l, t))
  {
    hide TaskOk, PayloadsOk, FinanceAfterProject, Issued;
    var k := Store(l, t);
    forall i | 0 <= i < 3 ensures TaskOk(k.tasks[i]) && PayloadsOk(k.frozen, k.tasks[i]) && FinanceAfterProject(k.tasks, k.tasks[i]) {
      if i != Index(t.target) {
        OtherPayloads(l, t, l.tasks[i]);
        FinanceStays(l, k, l.tasks[i]);
      }
    }
  }

  lemma TasksOk(l: Ledger)
    requires LedgerOk(l)
    ensures TaskOk(l.tasks[0]) && PayloadsOk(l.frozen, l.tasks[0])
    ensures TaskOk(l.tasks[1]) && PayloadsOk(l.frozen, l.tasks[1]) && FinanceAfterProject(l.tasks, l.tasks[1])
    ensures TaskOk(l.tasks[2]) && PayloadsOk(l.frozen, l.tasks[2])
  {
  }

  // ----- The writes -----

  lemma ClaimWritable(l: Ledger, i: nat, now: int)
    requires LedgerOk(l) && i < 3 && Claimable(l.tasks[i], now)
    ensures Index(l.tasks[i].target) == i && Writable(l, ClaimedTask(l.tasks[i], now))
  {
    TasksOk(l);
  }

  lemma ClaimSendable(l: Ledger, i: nat, now: int)
    requires LedgerOk(l) && i < 3 && Claimable(l.tasks[i], now) && Grown(l, Store(l, ClaimedTask(l.tasks[i], now)))
    requires TaskOk(ClaimedTask(l.tasks[i], now))
    ensures Sendable(Store(l, ClaimedTask(l.tasks[i], now)), ClaimedTask(l.tasks[i], now))
  {
    hide TaskOk;
    TasksOk(l);
  }

  lemma FreezeWritable(l: Ledger, t: Task, payload: string, now: int)
    requires LedgerOk(l) && Sendable(l, t) && t.payload == "" && payload != "" && t.target != REPORT
    requires SaveFits(l.tasks[Index(t.target)], t.(payload := payload), now)
    requires t.target == FINANCE && t.phase == RELEASE ==> l.tasks[0].state == Complete
    ensures var frozen := t.(payload := payload);
            Writable(l, Counted(l, frozen)) && Sendable(Store(l, Counted(l, frozen)), frozen)
  {
    TasksOk(l);
  }

  lemma FinishWritable(l: Ledger, t: Task, now: int)
    requires LedgerOk(l) && Holds(l, t) && TaskOk(t) && FinanceAfterProject(l.tasks, t)
    requires SaveFits(l.tasks[Index(t.target)], t, now)
    ensures Writable(l, Counted(l, t))
  {
    TasksOk(l);
  }

  /** The task of a release asked for the first time. */
  predicate FirstAsked(current: Task, t: Task, phase: Phase) {
    && current.state !in {NotApplicable, Blocked, Complete} && !(current.phase == phase && current.command != NoCommand)
    && (current.target == FINANCE && phase == RELEASE ==> current.receipt != "")
    && (current.target == FINANCE && phase == PREPARE ==> current.receipt == "")
    && t == current.(phase := phase, state := if current.target == REPORT then ReleaseRequested else Queued, epoch := current.epoch + 1,
                     leaseUntil := 0, nextAttempt := t.nextAttempt, command := Stable(current.target, phase), payload := "",
                     version := current.version + 1)
  }

  lemma PlainCases(current: Task, version: nat, phase: Phase, allowed: bool, now: int)
    requires TaskOk(current) && Queue(current, version, phase, Plain, allowed, now).Ok?
    ensures var t := Queue(current, version, phase, Plain, allowed, now).value;
            FirstAsked(current, t, phase) || t == current.(version := current.version + 1)
  {
  }

  lemma FirstAskedWritable(l: Ledger, target: Target, phase: Phase, t: Task)
    requires LedgerOk(l) && Askable(target, phase) && FirstAsked(l.tasks[Index(target)], t, phase)
    ensures Writable(l, t)
  {
    TasksOk(l);
    assert Stable(target, phase) !in l.frozen;
  }

  lemma CountedWritable(l: Ledger, target: Target)
    requires LedgerOk(l)
    ensures Writable(l, Counted(l, l.tasks[Index(target)]))
  {
    TasksOk(l);
  }

  lemma PlainWritable(l: Ledger, target: Target, version: nat, phase: Phase, allowed: bool, now: int)
    requires LedgerOk(l) && Askable(target, phase)
    requires Queue(l.tasks[Index(target)], version, phase, Plain, allowed, now).Ok?
    ensures var current, t := l.tasks[Index(target)], Queue(l.tasks[Index(target)], version, phase, Plain, allowed, now).value;
            Writable(l, t) && t.target == target && (t.epoch > current.epoch || t == current.(version := t.version))
  {
    hide TaskOk, PayloadsOk, FinanceAfterProject, Issued, Queue, Writable;
    var current, t := l.tasks[Index(target)], Queue(l.tasks[Index(target)], version, phase, Plain, allowed, now).value;
    TasksOk(l);
    PlainCases(current, version, phase, allowed, now);
    if FirstAsked(current, t, phase) {
      FirstAskedWritable(l, target, phase, t);
    } else {
      CountedWritable(l, target);
    }
  }

  lemma RetryWritable(l: Ledger, base: Task, phase: Phase, allowed: bool, now: int)
    requires LedgerOk(l) && base == l.tasks[0] && base.phase == RELEASE && base.payload != ""
    requires Queue(base, base.version, phase, Retry(base), allowed, now).Ok?
    ensures var t := Queue(base, base.version, phase, Retry(base), allowed, now).value;
            Writable(l, t) && t.epoch > base.epoch && t.target == PROJECT
  {
    TasksOk(l);
  }

  lemma RecoveryWritable(l: Ledger, base: Task, payload: string, phase: Phase, allowed: bool, now: int)
    requires LedgerOk(l) && base == l.tasks[1] && base.phase == RELEASE && base.payload != "" && payload != "" && l.tasks[0].state == Complete
    requires Queue(base, base.version, phase, Recovery(base, payload), allowed, now).Ok?
    ensures var t := Queue(base, base.version, phase, Recovery(base, payload), allowed, now).value;
            Writable(l, t) && t.epoch > base.epoch && t.target == FINANCE
  {
    TasksOk(l);
    assert Generation(base.generation + 1) !in l.frozen;
  }

  // ----- The moves -----

  /** What a move does to the ledger, and that it leaves every other worker behind or alone. */
  ghost predicate Fine(l: Ledger, k: Ledger, i: nat) {
    && LedgerOk(k) && Grown(l, k) && i < 3
    && (forall j :: 0 <= j < 3 && j != i ==> k.tasks[j] == l.tasks[j])
  }

  lemma EnqueueFine(l: Ledger, request: Request, allowed: bool, now: int)
    requires LedgerOk(l) && RequestOk(l.tasks, request) && request.Request?
    ensures var k, i := Enqueued(l, request, allowed, now), Index(request.target);
            Fine(l, k, i) && (k.tasks[i].epoch > l.tasks[i].epoch || k.tasks[i] == l.tasks[i].(version := k.tasks[i].version))
  {
    hide TaskOk, PayloadsOk, FinanceAfterProject, Issued, Queue, Writable, LedgerOk;
    var queued := Queue(l.tasks[Index(request.target)], request.version, request.phase, request.plan, allowed, now);
    QueueVersion(l.tasks[Index(request.target)], request.version, request.phase, request.plan, allowed, now);
    if queued.Ok? {
      match request.plan {
        case Plain => PlainWritable(l, request.target, request.version, request.phase, allowed, now);
        case Retry(base) => RetryWritable(l, base, request.phase, allowed, now);
        case Recovery(base, payload) => RecoveryWritable(l, base, payload, request.phase, allowed, now);
      }
      StoreKeeps(l, queued.value);
    }
  }

  lemma QueueVersion(t: Task, version: nat, phase: Phase, plan: Plan, allowed: bool, now: int)
    ensures Queue(t, version, phase, plan, allowed, now).Ok? ==> t.version == version
  {
  }

  lemma PrepareFine(l: Ledger, m: Move)
    requires m.Ask?
    ensures RequestOk(l.tasks, Prepare(l.tasks, m))
  {
  }

  /** A worker's move writes only under its own epoch, or claims a new one. */
  ghost predicate WorkFine(l: Ledger, worker: Worker, k: Ledger, next: Worker) {
    && LedgerOk(k) && Grown(l, k) && WorkerOk(k, next)
    && (k.tasks == l.tasks
        || (!worker.Idle? && Fine(l, k, Index(worker.task.target)) && k.tasks[Index(worker.task.target)].epoch == worker.task.epoch)
        || (worker.Idle? && !next.Idle? && Fine(l, k, Index(next.task.target))
            && k.tasks[Index(next.task.target)].epoch > l.tasks[Index(next.task.target)].epoch))
    && (!next.Idle? ==>
          || (!worker.Idle? && next.task.target == worker.task.target && next.task.epoch == worker.task.epoch)
          || (worker.Idle? && next.task.epoch > l.tasks[Index(next.task.target)].epoch))
  }

  lemma ClaimWork(l: Ledger, worker: Worker, now: int)
    requires LedgerOk(l) && WorkerOk(l, worker)
    ensures WorkFine(l, worker, Work(l, worker, Claim(now)).0, Work(l, worker, Claim(now)).1)
  {
    hide TaskOk, PayloadsOk, FinanceAfterProject, Issued, Writable, LedgerOk, Sendable;
    if worker.Idle? && FirstClaimable(l.tasks, now).Some? {
      var i := FirstClaimable(l.tasks, now).value;
      ClaimWritable(l, i, now);
      StoreKeeps(l, ClaimedTask(l.tasks[i], now));
      WritableOk(l, ClaimedTask(l.tasks[i], now));
      ClaimSendable(l, i, now);
    }
  }

  lemma FreezeWork(l: Ledger, worker: Worker, m: Move)
    requires LedgerOk(l) && WorkerOk(l, worker) && m.Freeze?
    ensures WorkFine(l, worker, Work(l, worker, m).0, Work(l, worker, m).1)
  {
    hide PayloadsOk, Issued, Writable, LedgerOk;
    if worker.Claimed? && m.payload != "" && worker.task.payload == "" && worker.task.target != REPORT {
      var t, frozen := worker.task, worker.task.(payload := m.payload);
      if (t.target == FINANCE && t.phase == RELEASE ==> worker.projectDone) && SaveFits(l.tasks[Index(t.target)], frozen, m.now) {
        FreezeWritable(l, t, m.payload, m.now);
        StoreKeeps(l, Counted(l, frozen));
      }
    }
  }

  lemma FinishWork(l: Ledger, worker: Worker, stored: bool, now: int)
    requires LedgerOk(l) && WorkerOk(l, worker)
    ensures WorkFine(l, worker, Work(l, worker, Finish(stored, now)).0, Work(l, worker, Finish(stored, now)).1)
  {
    hide TaskOk, PayloadsOk, FinanceAfterProject, Issued, Writable, LedgerOk, Sendable;
    if worker.Finishing? && SaveFits(l.tasks[Index(worker.task.target)], worker.task, now) {
      FinishWritable(l, worker.task, now);
      StoreKeeps(l, Counted(l, worker.task));
    }
  }

  lemma WritableOk(l: Ledger, t: Task)
    requires Writable(l, t)
    ensures TaskOk(t)
  {
  }

  lemma SentKeeps(l: Ledger, command: CommandId, payload: string)
    requires LedgerOk(l) && Stored(l.frozen, command, payload)
    ensures LedgerOk(l.(sent := l.sent + [Archived(command, payload)]))
  {
    hide TaskOk, PayloadsOk, FinanceAfterProject, Issued;
  }

  lemma SendWork(l: Ledger, worker: Worker)
    requires LedgerOk(l) && WorkerOk(l, worker)
    ensures WorkFine(l, worker, Work(l, worker, Send).0, Work(l, worker, Send).1)
  {
    hide TaskOk, PayloadsOk, FinanceAfterProject, Issued, LedgerOk;
    var k := Work(l, worker, Send).0;
    if worker.Ready? && worker.task.payload != "" {
      SentKeeps(l, worker.task.command, worker.task.payload);
      WorkerStays(l, k, worker);
    }
  }

  lemma FailedOk(l: Ledger, t: Task, refusal: Refusal, now: int)
    requires Sendable(l, t)
    ensures WorkerOk(l, Finishing(Failed(t, refusal, now)))
  {
  }

  lemma SucceededOk(l: Ledger, t: Task, receipt: string)
    requires Sendable(l, t) && receipt != "" && (t.receipt != "" ==> t.receipt == receipt) && (t.target == FINANCE ==> t.payload != "")
    ensures WorkerOk(l, Finishing(Succeeded(t, receipt)))
  {
  }

  lemma OutcomeWork(l: Ledger, worker: Worker, m: Move)
    requires LedgerOk(l) && WorkerOk(l, worker) && (m.GiveUp? || m.Reply? || m.Crash?)
    ensures WorkFine(l, worker, Work(l, worker, m).0, Work(l, worker, m).1)
  {
    hide TaskOk, PayloadsOk, FinanceAfterProject, Issued, LedgerOk, Failed, Succeeded, Sendable, Holds;
    if m.GiveUp? && (worker.Claimed? || worker.Ready? || worker.Sent?) {
      FailedOk(l, worker.task, m.refusal, m.now);
      FailedSame(worker.task, m.refusal, m.now);
    }
    if m.Reply? && worker.Sent? {
      if m.receipt == "" || (worker.task.receipt != "" && worker.task.receipt != m.receipt) {
        FailedOk(l, worker.task, Invalid, 0);
        FailedSame(worker.task, Invalid, 0);
      } else {
        SucceededOk(l, worker.task, m.receipt);
        SucceededSame(worker.task, m.receipt);
      }
    }
  }

  lemma FailedSame(t: Task, refusal: Refusal, now: int)
    ensures Failed(t, refusal, now).target == t.target && Failed(t, refusal, now).epoch == t.epoch
  {
  }

  lemma SucceededSame(t: Task, receipt: string)
    ensures Succeeded(t, receipt).target == t.target && Succeeded(t, receipt).epoch == t.epoch
  {
  }

  lemma WorkKeeps(l: Ledger, worker: Worker, m: Move)
    requires LedgerOk(l) && WorkerOk(l, worker) && !m.Ask? && !m.Enqueue?
    ensures WorkFine(l, worker, Work(l, worker, m).0, Work(l, worker, m).1)
  {
    hide LedgerOk, WorkerOk, WorkFine;
    match m
    case Claim(now) => ClaimWork(l, worker, now);
    case Freeze(_, _, _) => FreezeWork(l, worker, m);
    case Finish(stored, now) => FinishWork(l, worker, stored, now);
    case Send => SendWork(l, worker);
    case _ => OutcomeWork(l, worker, m);
  }

  lemma RequestsStay(s: World, t: World, a: nat)
    requires (forall r :: r in s.requests ==> RequestOk(s.ledger.tasks, s.requests[r])) && Grown(s.ledger, t.ledger)
    requires RequestOk(t.ledger.tasks, RequestOf(t, a)) && forall r :: r in t.requests && r != a ==> r in s.requests && t.requests[r] == s.requests[r]
    ensures forall r :: r in t.requests ==> RequestOk(t.ledger.tasks, t.requests[r])
  {
    hide Grown, RequestOk;
    forall r | r in t.requests ensures RequestOk(t.ledger.tasks, t.requests[r]) {
      if r != a {
        RequestStays(s.ledger, t.ledger, s.requests[r]);
      }
    }
  }

  lemma EnqueueKeeps(s: World, a: nat, m: Move)
    requires Inv(s) && m.Enqueue?
    ensures Inv(Next(s, a, m)) && Grown(s.ledger, Next(s, a, m).ledger)
  {
    hide LedgerOk, WorkerOk, RequestOk, Enqueued;
    var t, request := Next(s, a, m), RequestOf(s, a);
    if request.Request? {
      EnqueueFine(s.ledger, request, m.allowed, m.now);
      forall w | w in t.workers ensures WorkerOk(t.ledger, t.workers[w]) {
        EpochBound(s.ledger, s.workers[w]);
        WorkerStays(s.ledger, t.ledger, s.workers[w]);
      }
      NothingRequested(t.ledger.tasks);
      RequestsStay(s, t, a);
    }
  }

  lemma NothingRequested(tasks: Tasks)
    ensures RequestOk(tasks, NoRequest)
  {
  }

  lemma EpochBound(l: Ledger, worker: Worker)
    requires WorkerOk(l, worker)
    ensures !worker.Idle? ==> worker.task.epoch <= l.tasks[Index(worker.task.target)].epoch
  {
  }

  lemma AskKeeps(s: World, a: nat, m: Move)
    requires Inv(s) && m.Ask?
    ensures Inv(Next(s, a, m)) && Grown(s.ledger, Next(s, a, m).ledger)
  {
    hide LedgerOk, WorkerOk, Prepare, RequestOk;
    PrepareFine(s.ledger, m);
    RequestsStay(s, Next(s, a, m), a);
  }

  lemma WorkerMoveKeeps(s: World, a: nat, m: Move)
    requires Inv(s) && !m.Ask? && !m.Enqueue?
    ensures Inv(Next(s, a, m)) && Grown(s.ledger, Next(s, a, m).ledger)
  {
    hide LedgerOk, WorkerOk, RequestOk, Work;
    var t, worker := Next(s, a, m), WorkerOf(s, a);
    NothingHeld(s.ledger);
    assert WorkerOk(s.ledger, worker);
    WorkKeeps(s.ledger, worker, m);
    forall w | w in t.workers ensures WorkerOk(t.ledger, t.workers[w]) {
      if w != a {
        EpochBound(s.ledger, s.workers[w]);
        WorkerStays(s.ledger, t.ledger, s.workers[w]);
      }
    }
    forall v | v != a && Active(s.workers, v) && !t.workers[a].Idle? && s.workers[v].task.target == t.workers[a].task.target
      ensures s.workers[v].task.epoch != t.workers[a].task.epoch
    {
      EpochBound(s.ledger, s.workers[v]);
    }
    forall r | r in s.requests ensures RequestOk(t.ledger.tasks, s.requests[r]) {
      RequestStays(s.ledger, t.ledger, s.requests[r]);
    }
  }

  lemma NothingHeld(l: Ledger)
    ensures WorkerOk(l, Idle)
  {
  }

  lemma GrownTwice(l: Ledger, k: Ledger, j: Ledger)
    requires Grown(l, k) && Grown(k, j)
    ensures Grown(l, j)
  {
  }

  lemma {:induction false} RunKeeps(s: World, moves: seq<(nat, Move)>)
    requires Inv(s)
    ensures Inv(Run(s, moves)) && Grown(s.ledger, Run(s, moves).ledger)
    decreases |moves|
  {
    hide Inv, Next, Grown;
    if moves == [] {
      GrownSelf(s.ledger);
    } else {
      var (a, m) := moves[0];
      var t := Next(s, a, m);
      if m.Ask? {
        AskKeeps(s, a, m);
      } else if m.Enqueue? {
        EnqueueKeeps(s, a, m);
      } else {
        WorkerMoveKeeps(s, a, m);
      }
      RunKeeps(t, moves[1..]);
      GrownTwice(s.ledger, t.ledger, Run(t, moves[1..]).ledger);
    }
  }

  lemma GrownSelf(l: Ledger)
    ensures Grown(l, l)
  {
  }

  // ----- What every run promises -----

  /** The item as its confirmation leaves it: a target is waiting, not applicable, or blocked. */
  predicate Fresh(s: World) {
    && s.workers == map[] && s.requests == map[] && s.ledger.sent == [] && s.ledger.frozen == map[]
    && forall i :: 0 <= i < 3 ==>
         && s.ledger.tasks[i] == NewTask(s.ledger.tasks[i].target, s.ledger.tasks[i].state)
         && s.ledger.tasks[i].state in {WaitingRelease, NotApplicable, Blocked}
  }

  lemma FreshInv(s: World)
    requires Fresh(s)
    ensures Inv(s)
  {
  }

  /** A payload goes with a command: it is the task's current one, an archived one, or one that was sent. */
  predicate Associated(l: Ledger, c: CommandId, payload: string) {
    || (exists i :: 0 <= i < 3 && l.tasks[i].command == c && l.tasks[i].payload == payload && payload != "")
    || (exists i, j :: 0 <= i < 3 && 0 <= j < |l.tasks[i].history| && l.tasks[i].history[j] == Archived(c, payload))
    || Archived(c, payload) in l.sent
  }

  lemma AssociatedFrozen(l: Ledger, c: CommandId, payload: string)
    requires LedgerOk(l) && Associated(l, c, payload)
    ensures Stored(l.frozen, c, payload)
  {
    hide TaskOk, Issued, FinanceAfterProject;
    if exists i, j :: 0 <= i < 3 && 0 <= j < |l.tasks[i].history| && l.tasks[i].history[j] == Archived(c, payload) {
      var i, j :| 0 <= i < 3 && 0 <= j < |l.tasks[i].history| && l.tasks[i].history[j] == Archived(c, payload);
      assert PayloadsOk(l.frozen, l.tasks[i]);
    } else if Archived(c, payload) in l.sent {
      var i :| 0 <= i < |l.sent| && l.sent[i] == Archived(c, payload);
    }
  }

  /**
    Over every run, a command is never associated with two different payloads, neither at one moment
    nor at two: what was once stored, archived or sent for it is what will ever be.
   */
  lemma OnePayloadPerCommand(s: World, before: seq<(nat, Move)>, after: seq<(nat, Move)>, c: CommandId, p: string, q: string)
    requires Fresh(s)
    requires Associated(Run(s, before).ledger, c, p) && Associated(Run(Run(s, before), after).ledger, c, q)
    ensures p == q
  {
    hide Associated, LedgerOk, Run;
    FreshInv(s);
    RunKeeps(s, before);
    RunKeeps(Run(s, before), after);
    AssociatedFrozen(Run(s, before).ledger, c, p);
    AssociatedFrozen(Run(Run(s, before), after).ledger, c, q);
  }

  /**
    Over every run: a finance release command exists only with a receipt of the preparation; its
    request is frozen, and it is complete, only with the project complete; receipts and completion last.
   */
  lemma FinanceOrdered(s: World, moves: seq<(nat, Move)>)
    requires Fresh(s)
    ensures var l := Run(s, moves).ledger;
            && (l.tasks[1].command == Stable(FINANCE, RELEASE) || l.tasks[1].command.Generation? ==> l.tasks[1].receipt != "")
            && (l.tasks[1].phase == RELEASE && l.tasks[1].payload != "" ==> l.tasks[0].state == Complete)
            && (l.tasks[1].state == Complete ==> l.tasks[1].receipt != "" && l.tasks[0].state == Complete)
  {
    hide Run;
    FreshInv(s);
    RunKeeps(s, moves);
    TasksOk(Run(s, moves).ledger);
  }

  /** A completed target is never taken up again, and a receipt never changes. */
  lemma CompleteIsFinal(s: World, before: seq<(nat, Move)>, after: seq<(nat, Move)>, i: nat)
    requires Fresh(s) && i < 3
    ensures var t, u := Run(s, before).ledger.tasks[i], Run(Run(s, before), after).ledger.tasks[i];
            && (t.state == Complete ==> u.state == Complete)
            && (t.receipt != "" ==> u.receipt == t.receipt)
            && t.version <= u.version && t.epoch <= u.epoch
  {
    hide Run, LedgerOk;
    FreshInv(s);
    RunKeeps(s, before);
    RunKeeps(Run(s, before), after);
  }
}

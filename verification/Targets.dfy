/**
  The downstream commands of one imported item (internal/application/contract_import_targets.go,
  import_finance_recovery.go, import_project_retry.go and internal/infrastructure/mysql/
  import_targets.go). Each of the three targets has a task; a release queues a command, a worker
  claims it under a lease, freezes its request before sending it, and saves the outcome.
 */
module Targets {
  import opened Wrappers

  const HISTORY_LIMIT := 100
  const LEASE := 60

  datatype Target = PROJECT | FINANCE | REPORT
  datatype Phase = NoPhase | PREPARE | RELEASE
  datatype State = WaitingRelease | NotApplicable | Queued | ReleaseRequested | Running | Waiting | Prepared | Complete | Blocked

  /** The command ids of this item and revision; the digests they are cut from are taken as injective. */
  datatype CommandId = NoCommand | Stable(target: Target, phase: Phase) | Generation(n: nat)

  datatype Archived = Archived(command: CommandId, payload: string)

  /** A task; `status`, `code` and `rejectedAt` tell how the recipient refused it. An empty payload is not frozen yet. */
  datatype Task = Task(target: Target, state: State, version: nat, phase: Phase, command: CommandId, generation: nat,
                       receipt: string, payload: string, epoch: nat, attempts: nat, leaseUntil: int, nextAttempt: int,
                       status: int, code: string, rejectedAt: Option<int>, history: seq<Archived>)

  datatype QueueError = Conflict | Unsupported | StillWaiting

  // ----- Queueing -----

  /** A release as asked for, a retry of a refused project command, or the recovery of a refused finance release. */
  datatype Plan =
    | Plain
    | Retry(base: Task)
    | Recovery(base: Task, payload: string)

  predicate RetryableProject(t: Task, now: int) {
    && t.phase == RELEASE && t.status == 422 && t.code == "IMPORT_VALIDATION_FAILED"
    && t.rejectedAt.Some? && t.rejectedAt.value <= now && t.leaseUntil <= now
    && t.command != NoCommand && t.payload != "" && t.receipt == "" && t.attempts > 0 && |t.history| < HISTORY_LIMIT
  }

  predicate RecoverableFinance(t: Task) {
    && t.phase == RELEASE && t.status == 409 && t.code == "SETTLEMENT_CONFLICT" && t.rejectedAt.Some?
    && t.payload != "" && |t.history| < HISTORY_LIMIT
  }

  /** The same command again, its payload unchanged and the refusal archived. */
  function Requeued(t: Task, now: int): Task {
    t.(history := t.history + [Archived(t.command, t.payload)], epoch := t.epoch + 1, state := Queued,
       nextAttempt := now, leaseUntil := 0, status := 0, code := "", rejectedAt := None)
  }

  /** A new generation of the release command with its payload; the refused one is archived. */
  function Recovered(t: Task, payload: string, now: int): Task {
    t.(history := t.history + [Archived(t.command, t.payload)], generation := t.generation + 1,
       command := Generation(t.generation + 1), payload := payload, epoch := t.epoch + 1, state := Queued,
       nextAttempt := now, leaseUntil := 0, status := 0, code := "", rejectedAt := None)
  }

  method RequeueRejectedProject(task: Task, now: int) returns (t: Task)
    ensures t == Requeued(task, now)
  {
    t := task;
    t := t.(history := t.history + [Archived(t.command, t.payload)]);
    t := t.(epoch := t.epoch + 1);
    t := t.(state := Queued);
    t := t.(nextAttempt := now, leaseUntil := 0);
    t := t.(status := 0, code := "", rejectedAt := None);
  }

  method NewFinanceRecovery(task: Task, payload: string, now: int) returns (t: Task)
    ensures t == Recovered(task, payload, now)
  {
    t := task;
    t := t.(history := t.history + [Archived(t.command, t.payload)]);
    t := t.(generation := t.generation + 1);
    t := t.(command := Generation(t.generation));
    t := t.(payload := payload);
    t := t.(epoch := t.epoch + 1);
    t := t.(state := Queued, nextAttempt := now, leaseUntil := 0);
    t := t.(status := 0, code := "", rejectedAt := None);
  }

  /** What the release makes of the task it finds. */
  function Released(t: Task, phase: Phase, plan: Plan, now: int): Result<Task, QueueError> {
    match plan
    case Retry(base) =>
      if t.state != Blocked || t.epoch != base.epoch || t.command != base.command || t.payload != base.payload
         || t.generation != base.generation then Err(Conflict)
      else Ok(Requeued(base, now))
    case Recovery(base, payload) =>
      if t.state != Blocked || t.command != base.command || t.epoch != base.epoch || t.generation != base.generation then Err(Conflict)
      else Ok(Recovered(base, payload, now))
    case Plain =>
      if t.state == NotApplicable || t.state == Blocked then Err(Unsupported)
      else if t.state == Complete || (t.phase == phase && t.command != NoCommand) then Ok(t)
      else if t.target == FINANCE && phase == RELEASE && t.receipt == "" then Err(StillWaiting)
      else if t.target == FINANCE && phase == PREPARE && t.receipt != "" then Ok(t)
      else Ok(t.(phase := phase, state := Queued, epoch := t.epoch + 1, leaseUntil := 0, nextAttempt := now,
                 command := Stable(t.target, phase), payload := ""))
  }

  lemma ReleasedTarget(t: Task, phase: Phase, plan: Plan, now: int)
    ensures Released(t, phase, plan, now).Ok? ==>
              Released(t, phase, plan, now).value.target == if plan.Plain? then t.target else plan.base.target
  {
  }

  /** Which releases the application passes on to the store. */
  predicate Askable(target: Target, phase: Phase) {
    phase == RELEASE || (target == FINANCE && phase == PREPARE)
  }

  /** Under the row lock and the version given; every success counts the version up. */
  function Queue(t: Task, version: nat, phase: Phase, plan: Plan, allowed: bool, now: int): Result<Task, QueueError> {
    if t.version != version || !allowed then Err(Conflict)
    else
      match Released(t, phase, plan, now)
      case Err(e) => Err(e)
      case Ok(next) =>
        if next.generation != t.generation && (next.generation != t.generation + 1 || next.history == []) then Err(Conflict)
        else
          var counted := next.(version := next.version + 1);
          Ok(if t.target == REPORT && counted.state == Queued then counted.(state := ReleaseRequested) else counted)
  }

  // ----- Claiming and saving -----

  predicate Claimable(t: Task, now: int) {
    t.state in {Queued, Waiting, Running, ReleaseRequested} && t.leaseUntil <= now && t.nextAttempt <= now
  }

  function ClaimedTask(t: Task, now: int): Task {
    t.(state := Running, epoch := t.epoch + 1, attempts := t.attempts + 1, version := t.version + 1, leaseUntil := now + LEASE)
  }

  /** A save is accepted for the current epoch, command and generation, under an unexpired lease. */
  predicate SaveFits(current: Task, task: Task, now: int) {
    current.epoch == task.epoch && current.command == task.command && current.generation == task.generation && current.leaseUntil > now
  }

  /** The tasks of the item, in the order the confirmation creates them. */
  type Tasks = s: seq<Task> | |s| == 3 && s[0].target == PROJECT && s[1].target == FINANCE && s[2].target == REPORT
    witness [NewTask(PROJECT, WaitingRelease), NewTask(FINANCE, WaitingRelease), NewTask(REPORT, WaitingRelease)]

  function Index(target: Target): (i: nat)
    ensures i < 3
  {
    match target
    case PROJECT => 0
    case FINANCE => 1
    case REPORT => 2
  }

  /** A task as the confirmation of the item creates it. */
  function NewTask(target: Target, state: State): Task {
    Task(target, state, 1, NoPhase, NoCommand, 0, "", "", 0, 0, 0, 0, 0, "", None, [])
  }

  /** The index of the first claimable task. */
  function FirstClaimable(tasks: Tasks, now: int): Option<nat> {
    if Claimable(tasks[0], now) then Some(0)
    else if Claimable(tasks[1], now) then Some(1)
    else if Claimable(tasks[2], now) then Some(2)
    else None
  }

  class TargetStore {
    var tasks: Tasks

    constructor (project: State, finance: State, report: State)
      ensures tasks == [NewTask(PROJECT, project), NewTask(FINANCE, finance), NewTask(REPORT, report)]
    {
      tasks := [NewTask(PROJECT, project), NewTask(FINANCE, finance), NewTask(REPORT, report)];
    }

    /** The change made to the task under the lock. */
    method ReleaseTask(task: Task, phase: Phase, plan: Plan, now: int) returns (r: Result<Task, QueueError>)
      ensures r == Released(task, phase, plan, now)
    {
      if plan.Retry? {
        if task.state != Blocked || task.epoch != plan.base.epoch || task.command != plan.base.command
           || task.payload != plan.base.payload || task.generation != plan.base.generation {
          return Err(Conflict);
        }
        var again := RequeueRejectedProject(plan.base, now);
        return Ok(again);
      }
      if plan.Recovery? {
        if task.state != Blocked || task.command != plan.base.command || task.epoch != plan.base.epoch
           || task.generation != plan.base.generation {
          return Err(Conflict);
        }
        var next := NewFinanceRecovery(plan.base, plan.payload, now);
        return Ok(next);
      }
      if task.state == NotApplicable || task.state == Blocked {
        return Err(Unsupported);
      }
      if task.state == Complete || (task.phase == phase && task.command != NoCommand) {
        return Ok(task);
      }
      if task.target == FINANCE && phase == RELEASE && task.receipt == "" {
        return Err(StillWaiting);
      }
      if task.target == FINANCE && phase == PREPARE && task.receipt != "" {
        return Ok(task);
      }
      var t := task.(phase := phase, state := Queued);
      t := t.(epoch := t.epoch + 1, leaseUntil := 0, nextAttempt := now);
      t := t.(command := Stable(t.target, phase), payload := "");
      return Ok(t);
    }

    method QueueImportTarget(target: Target, version: nat, phase: Phase, plan: Plan, allowed: bool, now: int) returns (error: Option<QueueError>)
      requires plan.Plain? || plan.base.target == target
      modifies this
      ensures match Queue(old(tasks)[Index(target)], version, phase, plan, allowed, now)
              case Ok(next) => error == None && tasks == old(tasks)[Index(target) := next]
              case Err(e) => error == Some(e) && tasks == old(tasks)
    {
      var t := tasks[Index(target)];
      if t.version != version || !allowed {
        return Some(Conflict);
      }
      var oldGeneration := t.generation;
      ReleasedTarget(t, phase, plan, now);
      var released := ReleaseTask(t, phase, plan, now);
      hide Released;
      if released.Err? {
        return Some(released.error);
      }
      t := released.value.(version := released.value.version + 1);
      if t.generation != oldGeneration {
        if t.generation != oldGeneration + 1 || |t.history| == 0 {
          return Some(Conflict);
        }
      }
      if target == REPORT && t.state == Queued {
        t := t.(state := ReleaseRequested);
      }
      tasks := tasks[Index(target) := t];
      return None;
    }

    method ClaimImportTarget(now: int) returns (found: Option<nat>)
      modifies this
      ensures found == FirstClaimable(old(tasks), now)
      ensures tasks == if found.Some? then old(tasks)[found.value := ClaimedTask(old(tasks)[found.value], now)] else old(tasks)
    {
      for i := 0 to |tasks|
        invariant tasks == old(tasks)
        invariant forall k :: 0 <= k < i ==> !Claimable(tasks[k], now)
      {
        var t := tasks[i];
        if t.state !in {Queued, Waiting, Running, ReleaseRequested} || t.leaseUntil > now || t.nextAttempt > now {
          continue;
        }
        t := t.(state := Running, epoch := t.epoch + 1, attempts := t.attempts + 1);
        t := t.(version := t.version + 1, leaseUntil := now + LEASE);
        tasks := tasks[i := t];
        return Some(i);
      }
      return None;
    }

    method SaveImportTarget(task: Task, now: int) returns (ok: bool)
      modifies this
      ensures ok <==> SaveFits(old(tasks)[Index(task.target)], task, now)
      ensures tasks == if ok then old(tasks)[Index(task.target) := task.(version := old(tasks)[Index(task.target)].version + 1)] else old(tasks)
    {
      var current := tasks[Index(task.target)];
      if current.epoch != task.epoch || current.command != task.command || current.generation != task.generation || current.leaseUntil <= now {
        return false;
      }
      tasks := tasks[Index(task.target) := task.(version := current.version + 1)];
      return true;
    }
  }
}

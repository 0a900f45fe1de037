/**
  What releases bring about, and how a target gets done: asked for, claimed, frozen, sent, answered
  and saved; and how a refused command gets done after all.
 */
module TargetProgress {
  import opened Wrappers
  import opened Targets
  import opened TargetRuns

  // ----- What a release does -----

  /** A release has something to ask for: the target is open, this phase has no command yet, and finance has what the phase needs. */
  predicate Asks(t: Task, phase: Phase) {
    && t.state !in {NotApplicable, Blocked, Complete} && (t.phase != phase || t.command == NoCommand)
    && (t.target == FINANCE && phase == RELEASE ==> t.receipt != "")
    && (t.target == FINANCE && phase == PREPARE ==> t.receipt == "")
  }

  /**
    A plain release queues a new command exactly when it is allowed, of the version given, and has
    something to ask for: under the target's stable command, in a new epoch, due at once and with no
    request frozen yet. Otherwise it only counts the version up, or is refused.
   */
  lemma {:induction false} PlainExactly(t: Task, version: nat, phase: Phase, allowed: bool, now: int)
    ensures var r := Queue(t, version, phase, Plain, allowed, now);
            && (r.Ok? && r.value.epoch == t.epoch + 1 <==> allowed && t.version == version && Asks(t, phase))
            && (r.Ok? && r.value.epoch == t.epoch + 1 ==>
                  r.value == t.(version := t.version + 1, epoch := t.epoch + 1, phase := phase, command := Stable(t.target, phase), payload := "",
                                state := if t.target == REPORT then ReleaseRequested else Queued, leaseUntil := 0, nextAttempt := now))
            && (r.Err? <==> !allowed || t.version != version || t.state in {NotApplicable, Blocked}
                            || (t.target == FINANCE && phase == RELEASE && t.receipt == "" && t.state != Complete
                                && (t.phase != RELEASE || t.command == NoCommand)))
            && (r.Err? ==> r.error == if !allowed || t.version != version then Conflict
                                      else if t.state in {NotApplicable, Blocked} then Unsupported else StillWaiting)
            && (r.Ok? && r.value.epoch != t.epoch + 1 && (t.target != REPORT || t.state != Queued) ==> r.value == t.(version := t.version + 1))
  {
  }

  /** A retry queues the same command and payload in a new epoch, with the refusal archived; only on a blocked task still as it was prepared from. */
  lemma {:induction false} RetryExactly(t: Task, base: Task, phase: Phase, now: int)
    requires t.target == PROJECT
    ensures var r := Queue(t, t.version, phase, Retry(base), true, now);
            && (r.Ok? <==> t.state == Blocked && base.epoch == t.epoch && base.command == t.command && base.payload == t.payload
                           && base.generation == t.generation)
            && (r.Ok? && base == t ==>
                  r.value == t.(version := t.version + 1, epoch := t.epoch + 1, state := Queued, nextAttempt := now, leaseUntil := 0,
                                history := t.history + [Archived(t.command, t.payload)], status := 0, code := "", rejectedAt := None))
  {
  }

  /** A recovery queues a new generation of the command with its own payload. */
  lemma {:induction false} RecoveryExactly(t: Task, base: Task, phase: Phase, payload: string, now: int)
    requires t.target == FINANCE
    ensures var r := Queue(t, t.version, phase, Recovery(base, payload), true, now);
            && (r.Ok? <==> t.state == Blocked && base.epoch == t.epoch && base.command == t.command && base.generation == t.generation)
            && (r.Ok? && base == t ==>
                  r.value == t.(version := t.version + 1, epoch := t.epoch + 1, state := Queued, nextAttempt := now, leaseUntil := 0,
                                generation := t.generation + 1, command := Generation(t.generation + 1), payload := payload,
                                history := t.history + [Archived(t.command, t.payload)], status := 0, code := "", rejectedAt := None))
  {
  }

  /** What is asked of a blocked project: only a refusal of its contents, with time passed and never answered, is retried. */
  lemma {:induction false} RetriedExactly(tasks: Tasks, version: nat, ok: bool, now: int)
    requires tasks[0].state == Blocked
    ensures var t := tasks[0];
            Prepare(tasks, Ask(PROJECT, version, RELEASE, "", ok, now))
            == if && ok && t.version == version && t.phase == RELEASE && t.command == Stable(PROJECT, RELEASE) && t.payload != "" && t.receipt == ""
                  && t.status == 422 && t.code == "IMPORT_VALIDATION_FAILED" && t.rejectedAt.Some? && t.rejectedAt.value <= now
                  && t.leaseUntil <= now && t.attempts > 0 && |t.history| < 100
               then Request(PROJECT, version, RELEASE, Retry(t)) else NoRequest
  {
  }

  /** What is asked of a blocked finance release: only a settlement conflict is recovered, once the project is complete. */
  lemma {:induction false} RecoveredExactly(tasks: Tasks, version: nat, payload: string, ok: bool, now: int)
    requires tasks[1].state == Blocked
    ensures var t := tasks[1];
            Prepare(tasks, Ask(FINANCE, version, RELEASE, payload, ok, now))
            == if && ok && t.version == version && t.phase == RELEASE && t.payload != "" && payload != "" && tasks[0].state == Complete
                  && t.status == 409 && t.code == "SETTLEMENT_CONFLICT" && t.rejectedAt.Some? && |t.history| < 100
               then Request(FINANCE, version, RELEASE, Recovery(t, payload)) else NoRequest
  {
  }

  /** The task claimed is the first that is queued, waiting, requested or left running, with its lease over and its time come. */
  lemma {:induction false} ClaimedExactly(tasks: Tasks, now: int, i: nat)
    requires i < 3
    ensures FirstClaimable(tasks, now) == Some(i) <==>
              && tasks[i].state in {Queued, Waiting, Running, ReleaseRequested} && tasks[i].leaseUntil <= now && tasks[i].nextAttempt <= now
              && forall j :: 0 <= j < i ==> tasks[j].state !in {Queued, Waiting, Running, ReleaseRequested} || tasks[j].leaseUntil > now
                                            || tasks[j].nextAttempt > now
    ensures FirstClaimable(tasks, now) == Some(i) ==>
              ClaimedTask(tasks[i], now) == tasks[i].(state := Running, epoch := tasks[i].epoch + 1, attempts := tasks[i].attempts + 1,
                                                      version := tasks[i].version + 1, leaseUntil := now + 60)
  {
  }

  /** A worker's outcome is saved only while its lease lasts and the task is still the one it claimed; otherwise it is lost. */
  lemma {:induction false} SavedExactly(s: World, w: nat, now: int)
    requires WorkerOf(s, w).Finishing?
    ensures var t := WorkerOf(s, w).task;
            var current := s.ledger.tasks[Index(t.target)];
            Next(s, w, Finish(true, now)).ledger.tasks
            == if current.leaseUntil > now && current.epoch == t.epoch && current.command == t.command && current.generation == t.generation then
                 s.ledger.tasks[Index(t.target) := t.(version := current.version + 1)]
               else s.ledger.tasks
  {
  }

  // ----- One delivery -----

  /** Worker w is idle, and target i is the first one due. */
  predicate Due(s: World, w: nat, i: nat, now: int) {
    && WorkerOf(s, w) == Idle && i < 3 && s.ledger.tasks[i].target == (if i == 0 then PROJECT else if i == 1 then FINANCE else REPORT)
    && Claimable(s.ledger.tasks[i], now) && forall j :: 0 <= j < i ==> !Claimable(s.ledger.tasks[j], now)
  }

  /** The payload a delivery sends: the one frozen before, or the one frozen now. */
  function PayloadOf(t: Task, payload: string): string {
    if t.payload != "" || t.target == REPORT then t.payload else payload
  }

  /** The stored task while its worker is at it. */
  function Held(t: Task, payload: string, now: int): Task {
    ClaimedTask(t, now).(payload := PayloadOf(t, payload), version := t.version + if PayloadOf(t, payload) == t.payload then 1 else 2)
  }

  predicate Preparable(s: World, i: nat, payload: string) {
    && i < 3 && (PayloadOf(s.ledger.tasks[i], payload) != "" || s.ledger.tasks[i].target == REPORT)
    && (s.ledger.tasks[i].target == FINANCE && s.ledger.tasks[i].phase == RELEASE ==> s.ledger.tasks[0].state == Complete)
  }

  /** A worker claims the task that is due, freezes its request unless it is frozen, and sends it. */
  lemma {:induction false} Sends(s: World, w: nat, i: nat, payload: string, now: int) returns (t: World)
    requires Due(s, w, i, now) && Preparable(s, i, payload)
    ensures t == Next(Next(Next(s, w, Claim(now)), w, Freeze(payload, true, now)), w, Send)
    ensures t.ledger.tasks == s.ledger.tasks[i := Held(s.ledger.tasks[i], payload, now)] && t.requests == s.requests
    ensures WorkerOf(t, w).Sent? && WorkerOf(t, w).task == Held(s.ledger.tasks[i], payload, now).(version := s.ledger.tasks[i].version + 1)
    ensures s.ledger.tasks[i].target != REPORT ==>
              t.ledger.sent == s.ledger.sent + [Archived(s.ledger.tasks[i].command, PayloadOf(s.ledger.tasks[i], payload))]
  {
    var task := s.ledger.tasks[i];
    ClaimsDue(s, w, i, now);
    var s1 := Next(s, w, Claim(now));
    FreezesClaimed(s, s1, w, i, payload, now);
    var s2 := Next(s1, w, Freeze(payload, true, now));
    t := Next(s2, w, Send);
    hide FirstClaimable, FreezeTask, Claimable;
  }

  lemma {:induction false} ClaimsDue(s: World, w: nat, i: nat, now: int)
    requires Due(s, w, i, now)
    ensures var t, claimed := Next(s, w, Claim(now)), ClaimedTask(s.ledger.tasks[i], now);
            && t.ledger.tasks == s.ledger.tasks[i := claimed] && WorkerOf(t, w) == Claimed(claimed, s.ledger.tasks[0].state == Complete)
            && t.requests == s.requests && t.ledger.sent == s.ledger.sent
  {
    assert FirstClaimable(s.ledger.tasks, now) == Some(i);
    hide Claimable;
  }

  lemma {:induction false} FreezesClaimed(s: World, s1: World, w: nat, i: nat, payload: string, now: int)
    requires Due(s, w, i, now) && Preparable(s, i, payload)
    requires s1.ledger.tasks == s.ledger.tasks[i := ClaimedTask(s.ledger.tasks[i], now)]
    requires WorkerOf(s1, w) == Claimed(ClaimedTask(s.ledger.tasks[i], now), s.ledger.tasks[0].state == Complete)
    ensures var t, task := Next(s1, w, Freeze(payload, true, now)), s.ledger.tasks[i];
            && WorkerOf(t, w) == Ready(ClaimedTask(task, now).(payload := PayloadOf(task, payload)))
            && t.ledger.tasks == s.ledger.tasks[i := Held(task, payload, now)]
            && t.requests == s1.requests && t.ledger.sent == s1.ledger.sent
  {
    hide Claimable;
  }

  /** The outcome of a task a worker has sent is saved. */
  lemma {:induction false} Saves(s: World, w: nat, outcome: Task, now: int) returns (t: World)
    requires WorkerOf(s, w) == Finishing(outcome) && SaveFits(s.ledger.tasks[Index(outcome.target)], outcome, now)
    ensures t == Next(s, w, Finish(true, now)) && WorkerOf(t, w) == Idle && t.requests == s.requests && t.ledger.sent == s.ledger.sent
    ensures t.ledger.tasks == s.ledger.tasks[Index(outcome.target) := Counted(s.ledger, outcome)]
  {
    t := Next(s, w, Finish(true, now));
  }

  /** How a delivered task ends: with its receipt, prepared or complete. */
  predicate Delivered(t: Task, u: Task, payload: string, receipt: string) {
    && u.receipt == receipt && u.state == (if t.target == FINANCE && t.phase == PREPARE then Prepared else Complete)
    && u.target == t.target && u.phase == t.phase && u.command == t.command && u.generation == t.generation && u.history == t.history
    && u.payload == PayloadOf(t, payload) && u.version > t.version && u.leaseUntil == 0
  }

  /** A task that is due can be delivered and answered with a receipt: its own, if it has one. */
  lemma {:induction false} Delivers(s: World, w: nat, i: nat, payload: string, receipt: string, now: int) returns (moves: seq<(nat, Move)>)
    requires Due(s, w, i, now) && Preparable(s, i, payload)
    requires receipt != "" && s.ledger.tasks[i].receipt in {"", receipt}
    ensures var t := Run(s, moves);
            && WorkerOf(t, w) == Idle && t.requests == s.requests
            && (forall j :: 0 <= j < 3 && j != i ==> t.ledger.tasks[j] == s.ledger.tasks[j])
            && Delivered(s.ledger.tasks[i], t.ledger.tasks[i], payload, receipt)
  {
    var s3 := Sends(s, w, i, payload, now);
    var s4 := Next(s3, w, Reply(receipt));
    var s5 := Saves(s4, w, Succeeded(WorkerOf(s3, w).task, receipt), now);
    moves := [(w, Claim(now)), (w, Freeze(payload, true, now)), (w, Send), (w, Reply(receipt)), (w, Finish(true, now))];
    RunFive(s, moves);
  }

  /** How a refused task ends: blocked, with the recipient's answer and the time. */
  predicate Refused(t: Task, u: Task, payload: string, status: int, code: string, now: int) {
    && u.state == Blocked && u.status == status && u.code == code && u.rejectedAt == Some(now)
    && u.target == t.target && u.phase == t.phase && u.command == t.command && u.generation == t.generation && u.history == t.history
    && u.payload == PayloadOf(t, payload) && u.receipt == t.receipt && u.version > t.version && u.leaseUntil == 0 && u.attempts == t.attempts + 1
  }

  lemma {:induction false} IsRefused(s: World, w: nat, i: nat, payload: string, status: int, code: string, now: int) returns (moves: seq<(nat, Move)>)
    requires Due(s, w, i, now) && Preparable(s, i, payload)
    ensures var t := Run(s, moves);
            && WorkerOf(t, w) == Idle && t.requests == s.requests
            && (forall j :: 0 <= j < 3 && j != i ==> t.ledger.tasks[j] == s.ledger.tasks[j])
            && Refused(s.ledger.tasks[i], t.ledger.tasks[i], payload, status, code, now)
  {
    var s3 := Sends(s, w, i, payload, now);
    var s4 := Next(s3, w, GiveUp(Answered(status, code), now));
    var s5 := Saves(s4, w, Failed(WorkerOf(s3, w).task, Answered(status, code), now), now);
    moves := [(w, Claim(now)), (w, Freeze(payload, true, now)), (w, Send), (w, GiveUp(Answered(status, code), now)), (w, Finish(true, now))];
    RunFive(s, moves);
  }

  lemma {:induction false} RunFive(s: World, moves: seq<(nat, Move)>)
    requires |moves| == 5
    ensures Run(s, moves) == Next(Next(Next(Next(Next(s, moves[0].0, moves[0].1), moves[1].0, moves[1].1),
                                            moves[2].0, moves[2].1), moves[3].0, moves[3].1), moves[4].0, moves[4].1)
  {
    hide Next;
    var t1 := Next(s, moves[0].0, moves[0].1);
    var t2 := Next(t1, moves[1].0, moves[1].1);
    var t3 := Next(t2, moves[2].0, moves[2].1);
    assert Run(s, moves) == Run(t1, moves[1..]);
    assert moves[1..][1..] == moves[2..] && Run(t1, moves[1..]) == Run(t2, moves[2..]);
    assert moves[2..][1..] == moves[3..] && Run(t2, moves[2..]) == Run(t3, moves[3..]);
    RunTwo(t3, moves[3..]);
  }

  lemma {:induction false} RunTwo(s: World, moves: seq<(nat, Move)>)
    requires |moves| == 2
    ensures Run(s, moves) == Next(Next(s, moves[0].0, moves[0].1), moves[1].0, moves[1].1)
  {
    hide Next;
    var t := Next(s, moves[0].0, moves[0].1);
    assert moves[1..][1..] == [];
    assert Run(Next(t, moves[1].0, moves[1].1), []) == Next(t, moves[1].0, moves[1].1);
    assert Run(t, moves[1..]) == Run(Next(t, moves[1..][0].0, moves[1..][0].1), moves[1..][1..]);
  }

  lemma {:induction false} RunConcat(s: World, a: seq<(nat, Move)>, b: seq<(nat, Move)>)
    ensures Run(s, a + b) == Run(Run(s, a), b)
    decreases |a|
  {
    hide Next;
    if a == [] {
      assert a + b == b;
    } else {
      assert (a + b)[1..] == a[1..] + b;
      RunConcat(Next(s, a[0].0, a[0].1), a[1..], b);
    }
  }

  // ----- Asking and delivering -----

  function TargetAt(i: nat): Target {
    if i == 0 then PROJECT else if i == 1 then FINANCE else REPORT
  }

  /** Somebody asks for a release, and it is queued. */
  lemma {:induction false} Queues(s: World, r: nat, i: nat, phase: Phase, payload: string, now: int, plan: Plan, next: Task)
      returns (moves: seq<(nat, Move)>)
    requires i < 3 && s.ledger.tasks[i].target == TargetAt(i)
    requires Prepare(s.ledger.tasks, Ask(TargetAt(i), s.ledger.tasks[i].version, phase, payload, true, now))
             == Request(TargetAt(i), s.ledger.tasks[i].version, phase, plan)
    requires Queue(s.ledger.tasks[i], s.ledger.tasks[i].version, phase, plan, true, now) == Ok(next) && next.target == TargetAt(i)
    ensures var t := Run(s, moves);
            t.ledger.tasks == s.ledger.tasks[i := next] && t.workers == s.workers && RequestOf(t, r) == NoRequest
  {
    hide Queue, Prepare;
    moves := [(r, Ask(TargetAt(i), s.ledger.tasks[i].version, phase, payload, true, now)), (r, Enqueue(true, now))];
    RunTwo(s, moves);
    hide Run;
  }

  /** The targets before i want nothing. */
  predicate FirstInLine(tasks: Tasks, i: nat) {
    forall j :: 0 <= j < i && j < 3 ==> tasks[j].state in {WaitingRelease, NotApplicable, Prepared, Complete, Blocked}
  }

  /** A target that has something to ask for, in a phase open to it, gets it: asked for, delivered, answered. */
  lemma {:induction false} Fulfils(s: World, w: nat, r: nat, i: nat, phase: Phase, payload: string, receipt: string, now: int)
      returns (moves: seq<(nat, Move)>)
    requires WorkerOf(s, w) == Idle && i < 3 && s.ledger.tasks[i].target == TargetAt(i) && FirstInLine(s.ledger.tasks, i) && now >= 0
    requires Askable(TargetAt(i), phase) && Asks(s.ledger.tasks[i], phase) && payload != ""
    requires i == 1 && phase == RELEASE ==> s.ledger.tasks[0].state == Complete
    requires receipt != "" && s.ledger.tasks[i].receipt in {"", receipt}
    ensures var t := Run(s, moves);
            && WorkerOf(t, w) == Idle && |t.ledger.tasks| == 3 && (forall j :: 0 <= j < 3 && j != i ==> t.ledger.tasks[j] == s.ledger.tasks[j])
            && t.ledger.tasks[i].state == (if i == 1 && phase == PREPARE then Prepared else Complete)
            && t.ledger.tasks[i].receipt == receipt && t.ledger.tasks[i].command == Stable(TargetAt(i), phase)
            && t.ledger.tasks[i].target == TargetAt(i) && t.ledger.tasks[i].phase == phase
  {
    PlainExactly(s.ledger.tasks[i], s.ledger.tasks[i].version, phase, true, now);
    var next := Queue(s.ledger.tasks[i], s.ledger.tasks[i].version, phase, Plain, true, now).value;
    var asking := Queues(s, r, i, phase, "", now, Plain, next);
    var t := Run(s, asking);
    hide Run, Queue, Prepare;
    StillIdle(s, t, w);
    var delivering := Delivers(t, w, i, payload, receipt, now);
    RunConcat(s, asking, delivering);
    moves := asking + delivering;
  }

  lemma {:induction false} StillIdle(s: World, t: World, w: nat)
    requires WorkerOf(s, w) == Idle && t.workers == s.workers
    ensures WorkerOf(t, w) == Idle
  {
  }

  // ----- From the confirmation on -----

  /** The item as its confirmation leaves it, with every target waiting. */
  predicate AllWaiting(s: World) {
    Fresh(s) && forall i :: 0 <= i < 3 ==> s.ledger.tasks[i].state == WaitingRelease
  }

  /** The project is bound; then finance is prepared and released under one receipt; and the report is released. */
  lemma {:induction false} AllComplete(s: World, w: nat, r: nat, p: string, f: string, g: string, now: int,
                                       bound: string, snapshot: string, mark: string) returns (moves: seq<(nat, Move)>)
    requires AllWaiting(s) && p != "" && f != "" && g != "" && bound != "" && snapshot != "" && mark != "" && now >= 0
    ensures var l := Run(s, moves).ledger;
            && l.tasks[0].state == l.tasks[1].state == l.tasks[2].state == Complete
            && l.tasks[0].receipt == bound && l.tasks[1].receipt == snapshot && l.tasks[2].receipt == mark
  {
    hide Run;
    var m1 := Fulfils(s, w, r, 0, RELEASE, p, bound, now);
    var t1 := Run(s, m1);
    var m2 := Fulfils(t1, w, r, 1, PREPARE, f, snapshot, now);
    var t2 := Run(t1, m2);
    var m3 := Fulfils(t2, w, r, 1, RELEASE, g, snapshot, now);
    var t3 := Run(t2, m3);
    var m4 := Fulfils(t3, w, r, 2, RELEASE, p, mark, now);
    RunConcat(s, m1, m2);
    RunConcat(s, m1 + m2, m3);
    RunConcat(s, m1 + m2 + m3, m4);
    moves := m1 + m2 + m3 + m4;
  }

  /** A project command refused for its contents, retried and then accepted, is complete under the same command and payload. */
  lemma {:induction false} RefusedProjectCompletes(s: World, w: nat, r: nat, payload: string, bound: string, now: int)
      returns (refusing: seq<(nat, Move)>, more: seq<(nat, Move)>)
    requires Fresh(s) && s.ledger.tasks[0].state == WaitingRelease && payload != "" && bound != "" && now >= 0
    ensures Run(s, refusing).ledger.tasks[0].state == Blocked
    ensures var t := Run(Run(s, refusing), more).ledger.tasks[0];
            && t.state == Complete && t.receipt == bound && t.command == Stable(PROJECT, RELEASE) && t.payload == payload
            && t.history == [Archived(Stable(PROJECT, RELEASE), payload)]
  {
    hide Run;
    var m1 := ReleasedAndRefused(s, w, r, 0, payload, 422, "IMPORT_VALIDATION_FAILED", now);
    refusing := m1;
    var u := Run(s, refusing);
    var t := u.ledger.tasks[0];
    RetryExactly(t, t, RELEASE, now);
    var next := Queue(t, t.version, RELEASE, Retry(t), true, now).value;
    var asking := Queues(u, r, 0, RELEASE, "", now, Retry(t), next);
    hide Queue, Prepare;
    var v := Run(u, asking);
    StillIdle(u, v, w);
    var delivering := Delivers(v, w, 0, payload, bound, now);
    RunConcat(u, asking, delivering);
    more := asking + delivering;
    assert [] + [Archived(Stable(PROJECT, RELEASE), payload)] == [Archived(Stable(PROJECT, RELEASE), payload)];
  }

  /** A finance release refused for its settlement, recovered and then accepted, is complete under a new generation of the command. */
  lemma {:induction false} RefusedFinanceCompletes(s: World, w: nat, r: nat, payload: string, corrected: string, now: int)
      returns (refusing: seq<(nat, Move)>, more: seq<(nat, Move)>)
    requires WorkerOf(s, w) == Idle && s.ledger.tasks[0].state == Complete && payload != "" && corrected != "" && now >= 0
    requires s.ledger.tasks[1].state == Prepared && s.ledger.tasks[1].phase == PREPARE && s.ledger.tasks[1].receipt != ""
    requires s.ledger.tasks[1].generation == 0 && s.ledger.tasks[1].history == []
    ensures Run(s, refusing).ledger.tasks[1].state == Blocked
    ensures var t := Run(Run(s, refusing), more).ledger.tasks[1];
            && t.state == Complete && t.receipt == s.ledger.tasks[1].receipt && t.command == Generation(1) && t.payload == corrected
            && t.history == [Archived(Stable(FINANCE, RELEASE), payload)]
  {
    hide Run;
    refusing := ReleasedAndRefused(s, w, r, 1, payload, 409, "SETTLEMENT_CONFLICT", now);
    var u := Run(s, refusing);
    var t := u.ledger.tasks[1];
    RecoveryExactly(t, t, RELEASE, corrected, now);
    var next := Queue(t, t.version, RELEASE, Recovery(t, corrected), true, now).value;
    var asking := Queues(u, r, 1, RELEASE, corrected, now, Recovery(t, corrected), next);
    hide Queue, Prepare;
    var v := Run(u, asking);
    StillIdle(u, v, w);
    var delivering := Delivers(v, w, 1, corrected, s.ledger.tasks[1].receipt, now);
    RunConcat(u, asking, delivering);
    more := asking + delivering;
    assert [] + [Archived(Stable(FINANCE, RELEASE), payload)] == [Archived(Stable(FINANCE, RELEASE), payload)];
  }

  lemma {:induction false} ReleasedAndRefused(s: World, w: nat, r: nat, i: nat, payload: string, status: int, code: string, now: int)
      returns (moves: seq<(nat, Move)>)
    requires WorkerOf(s, w) == Idle && i < 2 && s.ledger.tasks[i].target == TargetAt(i) && FirstInLine(s.ledger.tasks, i) && now >= 0
    requires Asks(s.ledger.tasks[i], RELEASE) && payload != ""
    requires i == 1 ==> s.ledger.tasks[0].state == Complete
    ensures var t := Run(s, moves);
            && WorkerOf(t, w) == Idle && (forall j :: 0 <= j < 3 && j != i ==> t.ledger.tasks[j] == s.ledger.tasks[j])
            && t.ledger.tasks[i].state == Blocked && t.ledger.tasks[i].status == status && t.ledger.tasks[i].code == code
            && t.ledger.tasks[i].rejectedAt == Some(now) && t.ledger.tasks[i].phase == RELEASE && t.ledger.tasks[i].target == TargetAt(i)
            && t.ledger.tasks[i].command == Stable(TargetAt(i), RELEASE) && t.ledger.tasks[i].payload == payload
            && t.ledger.tasks[i].receipt == s.ledger.tasks[i].receipt && t.ledger.tasks[i].leaseUntil == 0 && t.ledger.tasks[i].attempts > 0
            && t.ledger.tasks[i].history == s.ledger.tasks[i].history && t.ledger.tasks[i].generation == s.ledger.tasks[i].generation
  {
    PlainExactly(s.ledger.tasks[i], s.ledger.tasks[i].version, RELEASE, true, now);
    var next := Queue(s.ledger.tasks[i], s.ledger.tasks[i].version, RELEASE, Plain, true, now).value;
    var asking := Queues(s, r, i, RELEASE, "", now, Plain, next);
    var t := Run(s, asking);
    hide Run, Queue, Prepare;
    StillIdle(s, t, w);
    var refusing := IsRefused(t, w, i, payload, status, code, now);
    RunConcat(s, asking, refusing);
    moves := asking + refusing;
  }

  /** A worker that cannot go on yet gives the task back, to be tried again after a quarter of a minute for each attempt so far. */
  lemma {:induction false} LaterWaits(t: Task, now: int)
    ensures var u := Failed(t, Later, now);
            && u == t.(state := Waiting, leaseUntil := 0, nextAttempt := u.nextAttempt)
            && u.nextAttempt == now + 15 * (if t.attempts < 20 then t.attempts else 20)
            && forall later :: later >= u.nextAttempt && later >= 0 ==> Claimable(u, later)
  {
  }
}

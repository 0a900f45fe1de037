/**
  The progress of the import dispatcher (internal/application/contract_import_dispatcher.go): every
  dispatch nobody interferes with finishes an item or takes the batch out of the claimable states.
 */
module ImportDispatch {
  import opened Wrappers
  import opened ImportBatch
  import opened ImportLedger
  import opened ImportRuns

  /** One dispatch nobody interferes with: the batch as its execution left it, and how the dispatch ended. */
  datatype Turn = Turn(worked: Batch, ending: Ending)

  /** The execution of an item completes that item and leaves the others' states alone. */
  predicate Executed(claimed: Batch, worked: Batch, index: nat) {
    && worked.epoch == claimed.epoch && worked.state == claimed.state && |worked.items| == |claimed.items|
    && forall k :: 0 <= k < |claimed.items| ==>
         if k == index then worked.items[k].state == Complete
         else worked.items[k].state == claimed.items[k].state && worked.items[k].issues == claimed.items[k].issues
  }

  function Claimed(b: Batch, now: int): Batch
    requires Claimable(b, now)
  {
    Saved(Claim(b, now).value)
  }

  /**
    The turn is what executing the first open item can come to: the item done, or the dispatch failed
    with the item created, confirmed or neither.
   */
  predicate Fits(b: Batch, turn: Turn, now: int)
    requires Claimable(b, now)
  {
    var claimed := Claimed(b, now);
    var index := NextOpen(claimed.items, 0);
    if index == |claimed.items| then turn.worked == claimed
    else if turn.ending.Done? then Executed(claimed, turn.worked, index)
    else OnlyAt(claimed, turn.worked, index)
  }

  function Dispatch(b: Batch, turn: Turn, now: int): Batch
    requires Claimable(b, now)
  {
    match Save(Finish(turn.worked, Claimed(b, now).epoch, NextOpen(Claimed(b, now).items, 0), turn.ending))
    case Ok(next) => next
    case Err(_) => turn.worked
  }

  predicate OnlyAt(a: Batch, b: Batch, index: nat) {
    && b.epoch == a.epoch && b.state == a.state && |b.items| == |a.items|
    && forall k :: 0 <= k < |a.items| ==> b.items[k].id == a.items[k].id && (k != index ==> b.items[k] == a.items[k])
  }

  lemma {:induction false} SameIndex(a: Batch, b: Batch, index: nat)
    requires ItemsApart(a.items) && OnlyAt(a, b, index) && index < |a.items|
    ensures Find(b.items, ById(a.items[index].id), 0) == index
  {
    var at := Find(b.items, ById(a.items[index].id), 0);
    assert at <= index && b.items[at].id == a.items[index].id;
  }

  /**
    Creating the contract and perhaps confirming it touches one item, wherever the dispatch fails after
    that; marking the item complete makes it an execution.
   */
  lemma {:induction false} CreationFits(b: Batch, before: Batch, stores: Stores, index: nat, offered: nat, digest: string, now: int)
    requires ItemsApart(b.items) && OnlyAt(b, before, index) && index < |b.items|
    requires CommitDraft(before, stores, b.revision, b.epoch, b.items[index].id, offered, digest, now).Ok?
    ensures OnlyAt(b, CommitDraft(before, stores, b.revision, b.epoch, b.items[index].id, offered, digest, now).value.batch, index)
  {
    hide ItemsApart, IdentityOf;
    SameIndex(b, before, index);
  }

  lemma {:induction false} ConfirmationFits(b: Batch, before: Batch, stores: Stores, index: nat, policy: Policy, roles: seq<string>, digest: string,
                                            ready: set<nat>, now: int)
    requires ItemsApart(b.items) && OnlyAt(b, before, index) && index < |b.items|
    requires AutoConfirm(before, stores, b.items[index].id, policy, roles, digest, ready, now).Ok?
    ensures OnlyAt(b, AutoConfirm(before, stores, b.items[index].id, policy, roles, digest, ready, now).value.batch, index)
  {
    hide ItemsApart, Confirmable, AutoConfirmation;
    SameIndex(b, before, index);
  }

  lemma {:induction false} CompletionFits(b: Batch, before: Batch, index: nat)
    requires ItemsApart(b.items) && OnlyAt(b, before, index) && index < |b.items|
    requires Save(MarkComplete(before, b.epoch, b.items[index].id)).Ok?
    ensures var next := Save(MarkComplete(before, b.epoch, b.items[index].id)).value; Executed(b, next, index) && OnlyAt(b, next, index)
  {
    SameIndex(b, before, index);
  }

  function Open(items: seq<Item>, n: nat): nat
    requires n <= |items|
  {
    if n == 0 then 0
    else Open(items, n - 1) + if items[n - 1].state == Complete || Terminal(items[n - 1]) then 0 else 1
  }

  predicate Leaves(b: Batch) {
    b.state !in {Queued, Running}
  }

  lemma {:induction false} NoneOpen(items: seq<Item>, n: nat)
    requires n <= |items| && Open(items, n) == 0
    ensures forall k :: 0 <= k < n ==> items[k].state == Complete || Terminal(items[k])
  {
    hide Terminal;
    if n > 0 {
      NoneOpen(items, n - 1);
    }
  }

  lemma {:induction false} OneClosed(a: Batch, b: Batch, i: nat, n: nat)
    requires Executed(a, b, i) && n <= |a.items| && i < |a.items| && a.items[i].state != Complete && !Terminal(a.items[i])
    ensures Open(b.items, n) == if i < n then Open(a.items, n) - 1 else Open(a.items, n)
  {
    if n > 0 {
      OneClosed(a, b, i, n - 1);
    }
  }

  /** Every dispatch takes the batch out of the claimable states, or closes one more item and leaves the batch claimable at once. */
  lemma {:induction false} DispatchAdvances(b: Batch, turn: Turn, now: int)
    requires Claimable(b, now) && Fits(b, turn, now)
    ensures var next := Dispatch(b, turn, now);
            Leaves(next) || (turn.ending.Done? && next.state == Queued && next.leaseUntil == 0
                             && Open(next.items, |next.items|) == Open(b.items, |b.items|) - 1)
    ensures Open(b.items, |b.items|) == 0 ==> Leaves(Dispatch(b, turn, now))
  {
    hide Terminal;
    var claimed := Claimed(b, now);
    var index := NextOpen(claimed.items, 0);
    if Open(b.items, |b.items|) == 0 {
      NoneOpen(b.items, |b.items|);
    }
    if index < |claimed.items| && turn.ending.Done? {
      OneClosed(claimed, turn.worked, index, |claimed.items|);
    }
  }

  /** Dispatches one after the other, until the batch can be claimed no more. */
  function Dispatches(b: Batch, turns: seq<Turn>, now: int): Batch
    decreases |turns|
  {
    if turns == [] || !Claimable(b, now) then b else Dispatches(Dispatch(b, turns[0], now), turns[1..], now)
  }

  predicate AllFit(b: Batch, turns: seq<Turn>, now: int)
    decreases |turns|
  {
    turns == [] || !Claimable(b, now) || (Fits(b, turns[0], now) && AllFit(Dispatch(b, turns[0], now), turns[1..], now))
  }

  /**
    A claimable batch with k open items leaves the claimable states within k + 1 undisturbed
    dispatches, however these end; terminal items never hold up the others.
   */
  lemma {:induction false} DispatcherLeaves(b: Batch, turns: seq<Turn>, now: int)
    requires Claimable(b, now) && AllFit(b, turns, now) && |turns| > Open(b.items, |b.items|)
    ensures Leaves(Dispatches(b, turns, now))
    decreases |turns|
  {
    hide Dispatch, Open, Fits;
    DispatchAdvances(b, turns[0], now);
    var next := Dispatch(b, turns[0], now);
    if !Leaves(next) {
      DispatcherLeaves(next, turns[1..], now);
    }
  }

  // ----- Dispatches as moves -----

  /** One worker's dispatch: its claim at a time, its moves on the first open item, and how it ended. */
  datatype Shift = Shift(w: nat, now: int, work: seq<Move>, ending: Ending)

  /** The moves a dispatch may make on its item. */
  predicate OnItem(m: Move, w: nat, index: nat) {
    (m.CreateContract? || m.ConfirmByItself? || m.CompleteItem?) && m.w == w && m.index == index
  }

  /** An idle worker claims, works on the first open item if there is one, and succeeds only by completing it at last. */
  predicate Proper(s: World, id: string, shift: Shift) {
    && id in s.batches && Claimable(s.batches[id], shift.now) && WorkerOf(s, shift.w).Idle?
    && var index := NextOpen(s.batches[id].items, 0);
       && (forall k :: 0 <= k < |shift.work| ==> OnItem(shift.work[k], shift.w, index))
       && if index == |s.batches[id].items| then shift.work == []
          else shift.ending.Done? ==> shift.work != [] && shift.work[|shift.work| - 1].CompleteItem?
  }

  function MovesOf(s: World, id: string, shift: Shift): seq<Move>
    requires id in s.batches
  {
    [ClaimBatch(shift.w, id, shift.now)] + shift.work + [EndDispatch(shift.w, NextOpen(s.batches[id].items, 0), shift.ending)]
  }

  /** The worker holds the batch as claimed, and has touched nothing but the item. */
  predicate AtWork(t: World, w: nat, id: string, claimed: Batch, index: nat) {
    && id in t.batches && WorkerOf(t, w) == Holding(id, claimed) && ItemsApart(claimed.items)
    && claimed.state == Running && index < |claimed.items| && OnlyAt(claimed, t.batches[id], index)
  }

  lemma {:induction false} ItemMoveKeeps(t: World, w: nat, id: string, claimed: Batch, index: nat, m: Move)
    requires AtWork(t, w, id, claimed, index) && OnItem(m, w, index)
    ensures AtWork(Next(t, m), w, id, claimed, index)
    ensures m.CompleteItem? ==> Executed(claimed, Next(t, m).batches[id], index)
  {
    hide CommitDraft, AutoConfirm, PolicyOf, OnlyAt, ItemsApart, Executed;
    var b, item := t.batches[id], claimed.items[index];
    match m
    case CreateContract(_, _, offered, now) =>
      if CommitDraft(b, t.stores, claimed.revision, claimed.epoch, item.id, offered, item.digest, now).Ok? {
        CreationFits(claimed, b, t.stores, index, offered, item.digest, now);
      }
    case ConfirmByItself(_, _, live, liveVersion, roles, digest, ready, now) =>
      var policy := PolicyOf(claimed.confirmation, live, liveVersion);
      if AutoConfirm(b, t.stores, item.id, policy, roles, digest, ready, now).Ok? {
        ConfirmationFits(claimed, b, t.stores, index, policy, roles, digest, ready, now);
      }
    case CompleteItem(_, _) =>
      CompletionSucceeds(claimed, b, index);
      CompletionFits(claimed, b, index);
  }

  lemma {:induction false} CompletionSucceeds(b: Batch, before: Batch, index: nat)
    requires ItemsApart(b.items) && OnlyAt(b, before, index) && index < |b.items| && b.state == Running
    ensures Save(MarkComplete(before, b.epoch, b.items[index].id)).Ok?
  {
    SameIndex(b, before, index);
  }

  lemma {:induction false} RunFrom(s: World, moves: seq<Move>, more: seq<Move>)
    ensures Run(s, moves + more) == Run(Run(s, moves), more)
    decreases |moves|
  {
    hide Next;
    if moves == [] {
      assert moves + more == more;
    } else {
      assert (moves + more)[1..] == moves[1..] + more;
      RunFrom(Next(s, moves[0]), moves[1..], more);
    }
  }

  lemma RunOne(s: World, m: Move)
    ensures Run(s, [m]) == Next(s, m)
  {
    hide Next;
    assert [m][1..] == [];
  }

  lemma {:induction false} WorkKeeps(t: World, w: nat, id: string, claimed: Batch, index: nat, work: seq<Move>)
    requires AtWork(t, w, id, claimed, index) && forall k :: 0 <= k < |work| ==> OnItem(work[k], w, index)
    ensures AtWork(Run(t, work), w, id, claimed, index)
    ensures work != [] && work[|work| - 1].CompleteItem? ==> Executed(claimed, Run(t, work).batches[id], index)
    decreases |work|
  {
    hide Next, AtWork, OnItem, Executed;
    if work != [] {
      ItemMoveKeeps(t, w, id, claimed, index, work[0]);
      WorkKeeps(Next(t, work[0]), w, id, claimed, index, work[1..]);
    }
  }

  lemma ClaimedInRun(s: World, id: string, shift: Shift)
    requires Proper(s, id, shift)
    ensures var t := Next(s, ClaimBatch(shift.w, id, shift.now));
            id in t.batches && t.batches[id] == Claimed(s.batches[id], shift.now) && WorkerOf(t, shift.w) == Holding(id, t.batches[id])
    ensures Claimed(s.batches[id], shift.now).items == s.batches[id].items && Claimed(s.batches[id], shift.now).state == Running
  {
  }

  lemma EndedInRun(t: World, w: nat, id: string, b: Batch, index: nat, ending: Ending, now: int)
    requires id in t.batches && Claimable(b, now) && WorkerOf(t, w) == Holding(id, Claimed(b, now)) && index == NextOpen(Claimed(b, now).items, 0)
    ensures id in Next(t, EndDispatch(w, index, ending)).batches
    ensures Next(t, EndDispatch(w, index, ending)).batches[id] == Dispatch(b, Turn(t.batches[id], ending), now)
  {
    hide Finish, NextOpen;
  }

  /** Such moves make a dispatch of the batch, with a turn its execution can come to. */
  lemma {:induction false} ShiftIsTurn(s: World, id: string, shift: Shift) returns (turn: Turn)
    requires Inv(s) && Proper(s, id, shift)
    ensures Fits(s.batches[id], turn, shift.now) && turn.ending == shift.ending
    ensures var t := Run(s, MovesOf(s, id, shift)); id in t.batches && t.batches[id] == Dispatch(s.batches[id], turn, shift.now)
  {
    var b, index := s.batches[id], NextOpen(s.batches[id].items, 0);
    var claim, end := ClaimBatch(shift.w, id, shift.now), EndDispatch(shift.w, index, shift.ending);
    var t := Next(s, claim);
    ClaimedInRun(s, id, shift);
    OneBatchOk(s, id);
    var worked := Run(t, shift.work);
    if index < |b.items| {
      SameAtFirst(t.batches[id], index);
      WorkKeeps(t, shift.w, id, t.batches[id], index, shift.work);
    }
    EndedInRun(worked, shift.w, id, b, index, shift.ending, shift.now);
    turn := Turn(worked.batches[id], shift.ending);
    hide Next, Run, Inv, Dispatch, Claimed, NextOpen, OnlyAt, Executed, ItemsApart;
    RunFrom(s, [claim] + shift.work, [end]);
    RunFrom(s, [claim], shift.work);
    RunOne(s, claim);
    RunOne(worked, end);
  }

  lemma SameAtFirst(b: Batch, index: nat)
    ensures OnlyAt(b, b, index)
  {
  }

  /** Dispatches by any workers, one after the other, until the batch can be claimed no more. */
  function RunShifts(s: World, id: string, shifts: seq<Shift>): World
    decreases |shifts|
  {
    if shifts == [] || id !in s.batches || Leaves(s.batches[id]) then s else RunShifts(Run(s, MovesOf(s, id, shifts[0])), id, shifts[1..])
  }

  predicate AllProper(s: World, id: string, shifts: seq<Shift>)
    decreases |shifts|
  {
    || shifts == [] || id !in s.batches || Leaves(s.batches[id])
    || (Proper(s, id, shifts[0]) && AllProper(Run(s, MovesOf(s, id, shifts[0])), id, shifts[1..]))
  }

  /**
    In the world of all batches and workers: a batch with k open items leaves the claimable states
    within k + 1 dispatches, by whichever workers and however they end.
   */
  lemma {:induction false} ShiftsLeave(s: World, id: string, shifts: seq<Shift>)
    requires Inv(s) && id in s.batches && AllProper(s, id, shifts)
    requires |shifts| > Open(s.batches[id].items, |s.batches[id].items|)
    ensures id in RunShifts(s, id, shifts).batches && Leaves(RunShifts(s, id, shifts).batches[id])
    decreases |shifts|
  {
    hide Run, Inv, Dispatch, Fits, Open, Proper;
    if !Leaves(s.batches[id]) {
      var turn := ShiftIsTurn(s, id, shifts[0]);
      ProperClaims(s, id, shifts[0]);
      DispatchAdvances(s.batches[id], turn, shifts[0].now);
      RunKeeps(s, MovesOf(s, id, shifts[0]));
      var t := Run(s, MovesOf(s, id, shifts[0]));
      if !Leaves(t.batches[id]) {
        ShiftsLeave(t, id, shifts[1..]);
      }
    }
  }

  lemma ProperClaims(s: World, id: string, shift: Shift)
    requires Proper(s, id, shift)
    ensures id in s.batches && Claimable(s.batches[id], shift.now)
  {
  }
}

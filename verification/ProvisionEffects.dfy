/**
  What the provisioning ledger records: the transitions it takes, the customer found or created, the
  opportunity, failures, and what a retry after one starts from.
 */
module ProvisionEffects {
  import opened Wrappers
  import opened Provision

  // ----- The transitions -----

  /** An advance is taken exactly one state further, or into a block, from the row's own state and attempt, with the id the new state needs. */
  lemma {:induction false} AdvanceExactly(row: Option<Row>, a: Advance)
    ensures AdvanceRow(row, a).Ok? <==>
            && row.Some? && row.value.state == a.from && row.value.attempt == a.attempt
            && (a.from, a.to) in {(Pending, CustomerReady), (CustomerReady, ContractReady), (ContractReady, OpportunityReady), (OpportunityReady, Completed),
                                  (Pending, Blocked), (CustomerReady, Blocked), (ContractReady, Blocked), (OpportunityReady, Blocked)}
            && (a.to == CustomerReady ==> a.customer != 0) && (a.to == OpportunityReady ==> a.opportunity != 0)
    ensures AdvanceRow(row, a).Ok? ==>
              var next := AdvanceRow(row, a).value;
              && next.state == a.to && next.attempt == row.value.attempt + 1 && next.error == ""
              && (if a.customer != 0 then next.customer == a.customer && next.customerCreated == a.customerCreated
                  else next.customer == row.value.customer && next.customerCreated == row.value.customerCreated)
              && (if a.opportunity != 0 then next.opportunity == a.opportunity && next.opportunityCreated == a.opportunityCreated
                  else next.opportunity == row.value.opportunity && next.opportunityCreated == row.value.opportunityCreated)
  {
  }

  /** A block is lifted, and a failure recorded, exactly under the row's own attempt; both keep every id. */
  lemma {:induction false} BlockExactly(row: Option<Row>, from: Phase, attempt: nat, code: string)
    ensures ResetRow(row, attempt).Ok? <==> row.Some? && row.value.state == Blocked && row.value.attempt == attempt
    ensures ResetRow(row, attempt).Ok? ==>
              ResetRow(row, attempt).value == row.value.(state := Pending, attempt := attempt + 1, error := "")
    ensures FailRow(row, from, attempt, code).Ok? <==> row.Some? && row.value.state == from && row.value.attempt == attempt
    ensures FailRow(row, from, attempt, code).Ok? ==> FailRow(row, from, attempt, code).value == row.value.(state := Blocked, error := code)
  {
  }

  // ----- What is recorded -----

  /** The worker's snapshot is still the row. */
  predicate UpToDate(s: World, record: Row) {
    s.row.Some? && s.row.value.state == record.state && s.row.value.attempt == record.attempt
  }

  lemma {:induction false} RunTwo(s: World, a: (nat, Move), b: (nat, Move))
    ensures Run(s, [a, b]) == MoveOf(MoveOf(s, a.0, a.1), b.0, b.1)
  {
    hide MoveOf;
    var t := MoveOf(s, a.0, a.1);
    assert [a, b][1..] == [b] && [b][1..] == [];
    assert Run(t, [b]) == Run(MoveOf(t, b.0, b.1), []);
    assert Run(s, [a, b]) == Run(t, [b]);
  }

  /** A customer found is recorded as found, and nothing is created in the CRM. */
  lemma {:induction false} FoundIsRecorded(s: World, w: nat, found: nat)
    requires WorkerOf(s, w).NeedsCustomer? && UpToDate(s, WorkerOf(s, w).record) && s.row.value.state == Pending && found != 0
    ensures var t := Run(s, [(w, FindCustomer(found)), (w, AdvanceCustomer)]);
            && t.row == Some(s.row.value.(state := CustomerReady, attempt := s.row.value.attempt + 1, error := "", customer := found, customerCreated := false))
            && t.customers == s.customers && t.opportunities == s.opportunities
  {
    RunTwo(s, (w, FindCustomer(found)), (w, AdvanceCustomer));
    hide Run;
  }

  /** A customer created is recorded as created, under the one id the CRM has for the key. */
  lemma {:induction false} CreatedIsRecorded(s: World, w: nat, newId: nat)
    requires WorkerOf(s, w).NeedsCustomer? && UpToDate(s, WorkerOf(s, w).record) && s.row.value.state == Pending
    requires newId != 0 && s.customers != Some(0)
    ensures var t := Run(s, [(w, CreateCustomer(newId)), (w, AdvanceCustomer)]);
            var id := if s.customers.Some? then s.customers.value else newId;
            && t.row == Some(s.row.value.(state := CustomerReady, attempt := s.row.value.attempt + 1, error := "", customer := id, customerCreated := true))
            && t.customers == Some(id) && t.opportunities == s.opportunities
  {
    RunTwo(s, (w, CreateCustomer(newId)), (w, AdvanceCustomer));
    hide Run;
  }

  /** So is an opportunity, next to the customer there was. */
  lemma {:induction false} OpportunityIsRecorded(s: World, w: nat, newId: nat)
    requires WorkerOf(s, w).NeedsOpportunity? && UpToDate(s, WorkerOf(s, w).record) && s.row.value.state == ContractReady
    requires newId != 0 && s.opportunities != Some(0)
    ensures var t := Run(s, [(w, CreateOpportunity(newId)), (w, AdvanceOpportunity)]);
            var id := if s.opportunities.Some? then s.opportunities.value else newId;
            && t.row == Some(s.row.value.(state := OpportunityReady, attempt := s.row.value.attempt + 1, error := "", opportunity := id, opportunityCreated := true))
            && t.opportunities == Some(id) && t.customers == s.customers
  {
    RunTwo(s, (w, CreateOpportunity(newId)), (w, AdvanceOpportunity));
    hide Run;
  }

  /** A failure of an up-to-date worker blocks the row under its code; one of a stale worker leaves no trace. */
  lemma {:induction false} FailureIsRecorded(s: World, w: nat, code: string)
    requires WorkerOf(s, w).NeedsCustomer? || WorkerOf(s, w).NeedsContract? || WorkerOf(s, w).NeedsOpportunity?
             || WorkerOf(s, w).HasOpportunity? || WorkerOf(s, w).WritingBack?
    ensures var t := MoveOf(s, w, Fail(code));
            && WorkerOf(t, w) == Idle && t.customers == s.customers && t.opportunities == s.opportunities
            && t.row == if UpToDate(s, WorkerOf(s, w).record) then Some(s.row.value.(state := Blocked, error := code)) else s.row
  {
  }

  /**
    A retry of a blocked row with its customer recorded starts with that customer: no worker looks one
    up or creates one again, and the row keeps its ids.
   */
  lemma {:induction false} RetryReusesCustomer(s: World, w: nat)
    requires WorkerOf(s, w) == Idle && s.row.Some? && s.row.value.state == Blocked && s.row.value.customer != 0
    ensures var t := MoveOf(MoveOf(MoveOf(s, w, Begin), w, ResetBlocked), w, Read);
            && t.row == Some(s.row.value.(state := Pending, attempt := s.row.value.attempt + 2, error := ""))
            && t.customers == s.customers && t.opportunities == s.opportunities
            && WorkerOf(t, w) == HasCustomer(t.row.value, s.row.value.customer, s.row.value.customerCreated)
  {
  }
}

/**
  What holds of a contract's stamped documents and signing ledger over every run of operations,
  interleaved with any changes of the contract's own status.
 */
module SigningRuns {
  import opened Wrappers
  import opened Text
  import opened Signing

  datatype Op =
    | UploadOp(expected: nat, digest: string, reason: string, now: int)
    | ShipOp(shipment: string)
    | ReceiveOp(now: int)
    | RemindOp
    | ConfirmOp(c: Confirmation, now: int)
    | MarkOp(version: nat, hash: string, news: News)
    | ContractBecomes(status: Option<string>)

  function Do(l: Ledger, op: Op): (Ledger, Outcome) {
    match op
    case UploadOp(expected, digest, reason, now) => Upload(l, expected, digest, reason, now)
    case ShipOp(shipment) => Ship(l, shipment)
    case ReceiveOp(now) => Receive(l, now)
    case RemindOp => Remind(l)
    case ConfirmOp(c, now) => Confirm(l, c, now)
    case MarkOp(version, hash, news) => Mark(l, version, hash, news)
    case ContractBecomes(status) => (l.(contract := status), Ok(()))
  }

  function Run(l: Ledger, ops: seq<Op>): Ledger
    decreases |ops|
  {
    if ops == [] then l else Run(Do(l, ops[0]).0, ops[1..])
  }

  // ----- The invariant -----

  /** Versions 1..n in order, and only the newest not superseded. */
  predicate Versions(documents: seq<Document>) {
    forall i :: 0 <= i < |documents| ==>
      documents[i].version == i + 1 && (documents[i].superseded.Some? <==> i < |documents| - 1)
  }

  /** Documents exist exactly while under review or completed; completed exactly on the newest document. */
  predicate RowFits(signing: Option<SigningRow>, documents: seq<Document>) {
    var n := |documents|;
    if signing.None? then n == 0
    else
      var row := signing.value;
      && row.status in [PENDING_SHIPMENT, IN_RETURN, PENDING_REVIEW, COMPLETED]
      && (n > 0 <==> row.status in [PENDING_REVIEW, COMPLETED])
      && (if row.status == COMPLETED then row.confirmedVersion == Some(n) && row.confirmedHash == Some(documents[n - 1].hash)
          else row.confirmedVersion == None && row.confirmedHash == None)
  }

  predicate Completed(l: Ledger) {
    l.signing.Some? && l.signing.value.status == COMPLETED
  }

  /** Every confirmation names a version that exists and its hash, once, in order; the newest only when completed. */
  predicate HistoryFits(l: Ledger) {
    && (forall i :: 0 <= i < |l.history| ==>
          && 0 < l.history[i].version <= |l.documents| && l.history[i].hash == l.documents[l.history[i].version - 1].hash)
    && (forall i, j :: 0 <= i < j < |l.history| ==> l.history[i].version < l.history[j].version)
    && (if Completed(l) then l.history != [] && l.history[|l.history| - 1].version == |l.documents|
        else forall i :: 0 <= i < |l.history| ==> l.history[i].version < |l.documents|)
  }

  predicate Chain(l: Ledger) {
    Versions(l.documents) && RowFits(l.signing, l.documents) && HistoryFits(l)
  }

  lemma {:induction false} NewestIsLast(documents: seq<Document>)
    requires forall i :: 0 <= i < |documents| ==> documents[i].version == i + 1
    ensures MaxVersion(documents) == |documents|
    ensures Newest(documents) == if documents == [] then None else Some(documents[|documents| - 1])
  {
    if documents != [] {
      NewestIsLast(documents[..|documents| - 1]);
    }
  }

  lemma VersionsExtended(documents: seq<Document>, digest: string, now: int)
    requires Versions(documents)
    ensures Versions(SupersedeAll(documents, now) + [Document(|documents| + 1, digest, None, "DISABLED", "", "")])
    ensures forall i :: 0 <= i < |documents| ==> SupersedeAll(documents, now)[i].hash == documents[i].hash
  {
    hide MaxVersion;
    NewestIsLast(documents);
  }

  /** A new version leaves the confirmations of the older ones, and completes nothing. */
  lemma HistoryOutdated(l: Ledger, l': Ledger)
    requires HistoryFits(l) && l'.history == l.history && !Completed(l') && |l'.documents| == |l.documents| + 1
    requires forall i :: 0 <= i < |l.documents| ==> l'.documents[i].hash == l.documents[i].hash
    ensures HistoryFits(l')
  {
    hide Completed;
  }

  lemma UploadKeeps(l: Ledger, expected: nat, digest: string, reason: string, now: int)
    requires Chain(l)
    ensures Chain(Upload(l, expected, digest, reason, now).0)
  {
    hide TrimSpace, MaxVersion, Newest, SupersedeAll, Versions, HistoryFits, UploadPolicy;
    var l' := Upload(l, expected, digest, reason, now).0;
    if l' != l {
      HighestIsLast(l.documents);
      VersionsExtended(l.documents, digest, now);
      HistoryOutdated(l, l');
    }
  }

  lemma HighestIsLast(documents: seq<Document>)
    requires Versions(documents)
    ensures MaxVersion(documents) == |documents|
    ensures Newest(documents) == if documents == [] then None else Some(documents[|documents| - 1])
    ensures documents != [] ==> documents[|documents| - 1].version == |documents|
  {
    NewestIsLast(documents);
  }

  lemma HistoryExtended(l: Ledger, l': Ledger, now: int)
    requires HistoryFits(l) && !Completed(l) && Completed(l') && l'.documents == l.documents != []
    requires l'.history == l.history + [Confirmed(|l.documents|, l.documents[|l.documents| - 1].hash, now)]
    ensures HistoryFits(l')
  {
    hide Completed;
  }

  lemma ConfirmKeeps(l: Ledger, c: Confirmation, now: int)
    requires Chain(l)
    ensures Chain(Confirm(l, c, now).0)
  {
    hide TrimSpace, EqualFold, MaxVersion, Newest, Versions, HistoryFits, Recorded;
    var l' := Confirm(l, c, now).0;
    HighestIsLast(l.documents);
    if l' != l {
      NotRecorded(l);
      HistoryExtended(l, l', now);
    }
  }

  lemma NotRecorded(l: Ledger)
    requires HistoryFits(l) && !Completed(l)
    ensures !Recorded(l.history, |l.documents|)
  {
  }

  lemma MarkKeeps(l: Ledger, version: nat, hash: string, news: News)
    requires Chain(l)
    ensures Chain(Mark(l, version, hash, news).0)
  {
    hide Gateway, RowFits, HistoryFits;
    GatewayKeeps(news);
    var l' := Mark(l, version, hash, news).0;
    assert forall i :: 0 <= i < |l.documents| ==>
      && l'.documents[i].version == l.documents[i].version && l'.documents[i].hash == l.documents[i].hash
      && l'.documents[i].superseded == l.documents[i].superseded;
    RowKept(l.signing, l.documents, l'.documents);
    HistoryKept(l, l');
  }

  lemma HistoryKept(l: Ledger, l': Ledger)
    requires HistoryFits(l) && l'.history == l.history && l'.signing == l.signing && |l'.documents| == |l.documents|
    requires forall i :: 0 <= i < |l.documents| ==> l'.documents[i].hash == l.documents[i].hash
    ensures HistoryFits(l')
  {
  }

  lemma RowKept(signing: Option<SigningRow>, a: seq<Document>, b: seq<Document>)
    requires RowFits(signing, a) && |a| == |b| && forall i :: 0 <= i < |a| ==> b[i].hash == a[i].hash
    ensures RowFits(signing, b)
  {
  }

  lemma GatewayKeeps(news: News)
    ensures forall d: Document :: Gateway(d, news).version == d.version && Gateway(d, news).hash == d.hash
                                  && Gateway(d, news).superseded == d.superseded
  {
  }

  lemma DoKeeps(l: Ledger, op: Op)
    requires Chain(l)
    ensures Chain(Do(l, op).0)
  {
    hide Upload, Confirm, Mark;
    hide Versions;
    match op
    case UploadOp(expected, digest, reason, now) => UploadKeeps(l, expected, digest, reason, now);
    case ConfirmOp(c, now) => ConfirmKeeps(l, c, now);
    case MarkOp(version, hash, news) => MarkKeeps(l, version, hash, news);
    case _ =>
  }

  /** The chain invariant holds of every run. */
  lemma {:induction false} ChainHolds(l: Ledger, ops: seq<Op>)
    requires Chain(l)
    ensures Chain(Run(l, ops))
    decreases |ops|
  {
    hide Do, Chain;
    if ops != [] {
      DoKeeps(l, ops[0]);
      ChainHolds(Do(l, ops[0]).0, ops[1..]);
    }
  }

  function NewContract(status: Option<string>): Ledger {
    Ledger(status, [], None, [])
  }

  /** From a contract without documents on, every reachable ledger is a chain. */
  lemma ReachableChains(status: Option<string>, ops: seq<Op>)
    ensures Chain(Run(NewContract(status), ops))
  {
    hide Run;
    ChainHolds(NewContract(status), ops);
  }

  // ----- Exactly when operations succeed -----

  /**
    A confirmation succeeds exactly for the newest version and its hash, completes the signing once and
    leaves one history entry for the version. Of the other errors, only a missing contract, no
    document, or another version or hash can occur: the last row check never fails.
   */
  lemma ConfirmExactly(l: Ledger, c: Confirmation, now: int)
    requires Chain(l)
    ensures var (l', r), n := Confirm(l, c, now), |l.documents|;
            && (r.Ok? <==> l.contract.Some? && n > 0 && c.version == n && EqualFold(TrimSpace(c.hash), l.documents[n - 1].hash))
            && (r.Ok? ==> Completed(l') && l'.documents == l.documents
                          && l'.history == if Completed(l) then l.history else l.history + [Confirmed(n, l.documents[n - 1].hash, now)])
            && (r.Ok? && Completed(l) ==> l' == l)
            && (r.Err? ==> l' == l && r.error == if l.contract.None? then NotFound else if n == 0 then StateConflict else VersionConflict)
  {
    hide TrimSpace, MaxVersion, Newest;
    NewestIsLast(l.documents);
  }

  /** An upload succeeds exactly on the current version, on a live contract, and over a completed signing only with a reason. */
  lemma UploadExactly(l: Ledger, expected: nat, digest: string, reason: string, now: int)
    requires Chain(l)
    ensures var (l', r), n := Upload(l, expected, digest, reason, now), |l.documents|;
            && (r.Ok? <==> l.contract.Some? && l.contract.value != ARCHIVED && expected == n && (Completed(l) ==> TrimSpace(reason) != ""))
            && (r.Ok? ==> |l'.documents| == n + 1 && l'.documents[n].hash == digest && l'.signing.value.status == PENDING_REVIEW
                          && l'.history == l.history)
            && (r.Err? ==> l' == l)
  {
    hide TrimSpace, MaxVersion, Newest;
    NewestIsLast(l.documents);
  }

  /** With a document uploaded, nothing can be shipped, received or reminded of any more. */
  lemma NothingShipsAfterUpload(l: Ledger, shipment: string, now: int)
    requires Chain(l) && l.documents != []
    ensures Ship(l, shipment).1.Err? && Receive(l, now).1.Err? && Remind(l).1.Err?
    ensures Ship(l, shipment).0 == Receive(l, now).0 == Remind(l).0 == l
  {
  }

  /** The gateway's answer changes the one row with that version and hash, and neither chain nor ledger. */
  lemma MarkIsLocal(l: Ledger, version: nat, hash: string, news: News)
    requires Chain(l)
    ensures var (l', r) := Mark(l, version, hash, news);
            && (r.Ok? <==> 0 < version <= |l.documents| && l.documents[version - 1].hash == hash)
            && l'.signing == l.signing && l'.history == l.history && |l'.documents| == |l.documents|
            && forall i :: 0 <= i < |l.documents| ==>
                 l'.documents[i] == if r.Ok? && i == version - 1 then Gateway(l.documents[i], news) else l.documents[i]
  {
    hide Gateway;
    if 0 < version <= |l.documents| && l.documents[version - 1].hash == hash {
      assert Targets(l.documents[version - 1], version, hash);
    }
  }

  // ----- Over runs -----

  /** Documents are only ever added: version and hash of an earlier one never change. */
  predicate Grown(a: seq<Document>, b: seq<Document>) {
    |a| <= |b| && forall i :: 0 <= i < |a| ==>
      b[i].version == a[i].version && b[i].hash == a[i].hash && (a[i].superseded.Some? ==> b[i].superseded == a[i].superseded)
  }

  lemma DoGrows(l: Ledger, op: Op)
    requires Chain(l)
    ensures Grown(l.documents, Do(l, op).0.documents)
  {
    hide TrimSpace, EqualFold, MaxVersion, Newest, Gateway, RowFits, HistoryFits;
    if op.MarkOp? {
      GatewayKeeps(op.news);
    }
  }

  lemma {:induction false} RunGrows(l: Ledger, ops: seq<Op>)
    requires Chain(l)
    ensures Grown(l.documents, Run(l, ops).documents)
    decreases |ops|
  {
    hide Do, Chain;
    if ops != [] {
      DoKeeps(l, ops[0]);
      DoGrows(l, ops[0]);
      RunGrows(Do(l, ops[0]).0, ops[1..]);
    }
  }

  /** Once a newer version exists, confirming an older one fails and changes nothing, whatever happens in between. */
  lemma OldVersionNeverConfirmed(l: Ledger, ops: seq<Op>, c: Confirmation, now: int)
    requires Chain(l) && c.version < |l.documents|
    ensures Confirm(Run(l, ops), c, now).1.Err? && Confirm(Run(l, ops), c, now).0 == Run(l, ops)
  {
    hide TrimSpace, EqualFold, Confirm, Chain, Run;
    ChainHolds(l, ops);
    RunGrows(l, ops);
    ConfirmExactly(Run(l, ops), c, now);
  }

  // ----- What operations write -----

  /** The first confirmation of a version stores who sealed and signed and when, and leaves the shipment as it was. */
  lemma {:induction false} ConfirmStores(l: Ledger, c: Confirmation, now: int)
    requires Chain(l) && Confirm(l, c, now).1.Ok? && !Completed(l)
    ensures var (a, b) := (l.signing, Confirm(l, c, now).0.signing);
            && a.Some? && b.Some? && b.value.status == COMPLETED && b.value.confirmedVersion == Some(c.version)
            && b.value.seal == c.seal && b.value.signature == c.signature && b.value.signedAt == Some(c.signedAt)
            && b.value.shipment == a.value.shipment && b.value.received == a.value.received && b.value.reminders == a.value.reminders
            && b.value.revision == a.value.revision + 1
  {
    hide TrimSpace, EqualFold, MaxVersion, Newest, Recorded, HistoryFits;
    HighestIsLast(l.documents);
  }

  /** An upload puts the signing back under review, with nothing of the last confirmation left. */
  lemma {:induction false} UploadClears(l: Ledger, expected: nat, digest: string, reason: string, now: int)
    requires Chain(l) && Upload(l, expected, digest, reason, now).1.Ok?
    ensures var row := Upload(l, expected, digest, reason, now).0.signing;
            && row.Some? && row.value.status == PENDING_REVIEW && !row.value.seal && !row.value.signature && row.value.signedAt == None
            && row.value.confirmedVersion == None && row.value.confirmedHash == None
            && (l.signing.Some? ==> row.value.shipment == l.signing.value.shipment && row.value.received == l.signing.value.received
                                    && row.value.reminders == l.signing.value.reminders && row.value.revision == l.signing.value.revision + 1)
    ensures var (a, b) := (l.documents, Upload(l, expected, digest, reason, now).0.documents);
            && |b| == |a| + 1 && b[|a|] == Document(|a| + 1, digest, None, "DISABLED", "", "")
            && forall i :: 0 <= i < |a| ==> b[i] == if a[i].superseded.None? then a[i].(superseded := Some(now)) else a[i]
  {
    hide TrimSpace, HistoryFits;
    HighestIsLast(l.documents);
    hide MaxVersion, Newest;
  }

  /** Shipping succeeds exactly for a contract without documents, and records what was sent. */
  lemma {:induction false} ShipExactly(l: Ledger, shipment: string)
    requires Chain(l)
    ensures Ship(l, shipment).1.Ok? <==> l.contract.Some? && l.documents == []
    ensures Ship(l, shipment).1.Ok? ==>
              var next := Ship(l, shipment).0;
              && next == l.(signing := next.signing) && next.signing.Some? && next.signing.value.status == IN_RETURN
              && next.signing.value.shipment == shipment
              && next.signing.value.received == (if l.signing.Some? then l.signing.value.received else None)
    ensures Ship(l, shipment).1.Err? ==> Ship(l, shipment).0 == l
  {
    hide HistoryFits, Versions;
  }

  /** A shipment is received once, at its time, and reminded of any number of times. */
  lemma {:induction false} ReturnExactly(l: Ledger, now: int)
    ensures var open := l.signing.Some? && l.signing.value.status == IN_RETURN;
            && (Receive(l, now).1.Ok? <==> open && l.signing.value.received == None)
            && (Receive(l, now).1.Ok? ==>
                  Receive(l, now).0 == l.(signing := Some(l.signing.value.(received := Some(now), revision := l.signing.value.revision + 1))))
            && (Remind(l).1.Ok? <==> open)
            && (Remind(l).1.Ok? ==>
                  Remind(l).0 == l.(signing := Some(l.signing.value.(reminders := l.signing.value.reminders + 1,
                                                                     revision := l.signing.value.revision + 1))))
            && (Receive(l, now).1.Err? ==> Receive(l, now).0 == l) && (Remind(l).1.Err? ==> Remind(l).0 == l)
  {
  }

  /** Hashes are compared letter by letter, whatever the case. */
  lemma {:induction false} FoldExactly(a: string, b: string)
    ensures EqualFold(a, b) <==> |a| == |b| && forall i :: 0 <= i < |a| ==>
              a[i] == b[i] || ('a' <= a[i] <= 'z' && a[i] as int - b[i] as int == 32) || ('a' <= b[i] <= 'z' && b[i] as int - a[i] as int == 32)
  {
    var x, y := Lower(a), Lower(b);
    if x == y {
      forall i | 0 <= i < |a|
        ensures a[i] == b[i] || ('a' <= a[i] <= 'z' && a[i] as int - b[i] as int == 32) || ('a' <= b[i] <= 'z' && b[i] as int - a[i] as int == 32)
      {
        assert x[i] == LowerChar(a[i]) && y[i] == LowerChar(b[i]);
      }
    } else if |a| == |b| {
      var i :| 0 <= i < |a| && x[i] != y[i];
      assert LowerChar(a[i]) != LowerChar(b[i]);
    }
  }

  /** What the gateway's news leaves in a document: its state, the file id once ready, the start of an error otherwise. */
  lemma {:induction false} GatewayStores(d: Document, state: string, value: string)
    ensures Gateway(d, Sent) == d.(gateway := "PENDING", lastError := "")
    ensures var after := Gateway(d, Answer(state, value));
            && after == d.(gateway := state, fileId := after.fileId, lastError := after.lastError)
            && (state == "READY" ==> after.fileId == value && after.lastError == "")
            && (state != "READY" ==> after.fileId == d.fileId && after.lastError <= value && |after.lastError| == if |value| < 512 then |value| else 512)
  {
  }

  /** The whole course: a new contract's paper is sent, received, uploaded stamped and confirmed. */
  lemma {:induction false} CourseCompletes(status: string, shipment: string, digest: string, c: Confirmation, t1: int, t2: int, t3: int)
    requires status != ARCHIVED && c.version == 1 && EqualFold(TrimSpace(c.hash), digest)
    ensures var l := Run(NewContract(Some(status)), [ShipOp(shipment), ReceiveOp(t1), UploadOp(0, digest, "", t2), ConfirmOp(c, t3)]);
            && Completed(l) && l.documents == [Document(1, digest, None, "DISABLED", "", "")] && l.history == [Confirmed(1, digest, t3)]
            && l.signing.value.shipment == shipment && l.signing.value.received == Some(t1) && l.signing.value.seal == c.seal
  {
    var l0 := NewContract(Some(status));
    RunFour(l0, ShipOp(shipment), ReceiveOp(t1), UploadOp(0, digest, "", t2), ConfirmOp(c, t3));
    hide EqualFold, TrimSpace;
    var l2 := Receive(Ship(l0, shipment).0, t1).0;
    assert l2 == Ledger(Some(status), [], Some(FirstRow(IN_RETURN, shipment).(received := Some(t1), revision := 2)), []);
    FirstUpload(l2, digest, t2);
    FirstConfirmation(Upload(l2, 0, digest, "", t2).0, digest, c, t3);
  }

  lemma {:induction false} FirstUpload(l: Ledger, digest: string, now: int)
    requires l.contract.Some? && l.contract.value != ARCHIVED && l.documents == [] && l.signing.Some? && l.signing.value.status == IN_RETURN
    ensures Upload(l, 0, digest, "", now).0
            == l.(documents := [Document(1, digest, None, "DISABLED", "", "")], signing := Some(Reopened(l.signing.value)))
  {
    assert MaxVersion([]) == 0;
    assert [] + [Document(1, digest, None, "DISABLED", "", "")] == [Document(1, digest, None, "DISABLED", "", "")];
  }

  lemma {:induction false} FirstConfirmation(l: Ledger, digest: string, c: Confirmation, now: int)
    requires l.contract.Some? && l.documents == [Document(1, digest, None, "DISABLED", "", "")] && l.history == []
    requires l.signing.Some? && l.signing.value.status == PENDING_REVIEW && l.signing.value.confirmedVersion == None
    requires c.version == 1 && EqualFold(TrimSpace(c.hash), digest)
    ensures var next := Confirm(l, c, now).0;
            && next.documents == l.documents && next.history == [Confirmed(1, digest, now)] && Completed(next)
            && next.signing.value.shipment == l.signing.value.shipment && next.signing.value.received == l.signing.value.received
            && next.signing.value.seal == c.seal
  {
    NewestIsLast(l.documents);
    hide EqualFold, TrimSpace, Newest, MaxVersion;
    assert !Recorded([], 1);
    assert [] + [Confirmed(1, digest, now)] == [Confirmed(1, digest, now)];
  }

  lemma {:induction false} RunFour(l: Ledger, a: Op, b: Op, c: Op, d: Op)
    ensures Run(l, [a, b, c, d]) == Do(Do(Do(Do(l, a).0, b).0, c).0, d).0
  {
    hide Do;
    assert [a, b, c, d][1..] == [b, c, d] && [b, c, d][1..] == [c, d] && [c, d][1..] == [d] && [d][1..] == [];
    var l1 := Do(l, a).0;
    var l2 := Do(l1, b).0;
    var l3 := Do(l2, c).0;
    assert Run(l3, [d]) == Run(Do(l3, d).0, []) == Do(l3, d).0;
    assert Run(l2, [c, d]) == Run(l3, [d]);
    assert Run(l1, [b, c, d]) == Run(l2, [c, d]);
    assert Run(l, [a, b, c, d]) == Run(l1, [b, c, d]);
  }
}

/**
  Stamped documents and the signing ledger of one contract
  (internal/infrastructure/mysql/contracts_stamped.go, contracts_signing_actions.go and
  contracts_policy.go). Every operation runs in one transaction under the contract's row lock, so
  it is one step here. Digests are given; shipping details are one opaque text.
 */
module Signing {
  import opened Wrappers
  import opened Text

  const PENDING_SHIPMENT := "pending_shipment"
  const IN_RETURN := "in_return"
  const PENDING_REVIEW := "pending_review"
  const COMPLETED := "completed"
  const ARCHIVED := "archived"

  datatype Document = Document(version: nat, hash: string, superseded: Option<int>, gateway: string, fileId: string, lastError: string)

  datatype SigningRow = SigningRow(status: string, revision: nat, shipment: string, received: Option<int>, reminders: nat,
                                   seal: bool, signature: bool, signedAt: Option<int>,
                                   confirmedVersion: Option<nat>, confirmedHash: Option<string>)

  datatype Confirmed = Confirmed(version: nat, hash: string, at: int)

  /** The rows that belong to one contract; `contract` is its status while it exists. */
  datatype Ledger = Ledger(contract: Option<string>, documents: seq<Document>, signing: Option<SigningRow>, history: seq<Confirmed>)

  /** RowConflict is the last check of an update, that it changed exactly one row. */
  datatype Error = NotFound | StateConflict | VersionConflict | RowConflict

  type Outcome = Result<(), Error>

  datatype Confirmation = Confirmation(version: nat, hash: string, seal: bool, signature: bool, signedAt: int)

  predicate EqualFold(a: string, b: string) {
    Lower(a) == Lower(b)
  }

  // ----- What each operation does -----

  function MaxVersion(documents: seq<Document>): nat {
    if documents == [] then 0
    else
      var front, last := MaxVersion(documents[..|documents| - 1]), documents[|documents| - 1].version;
      if last > front then last else front
  }

  /** The row with the highest version. */
  function Newest(documents: seq<Document>): Option<Document> {
    if documents == [] then None
    else
      var front, last := Newest(documents[..|documents| - 1]), documents[|documents| - 1];
      if front.None? || last.version > front.value.version then Some(last) else front
  }

  function Supersede(d: Document, now: int): Document {
    if d.superseded.None? then d.(superseded := Some(now)) else d
  }

  /** Rows are superseded only once there is a version to supersede. */
  function SupersedeAll(documents: seq<Document>, now: int): (r: seq<Document>)
    ensures |r| == |documents|
    ensures MaxVersion(documents) > 0 ==> forall i :: 0 <= i < |r| ==> r[i] == Supersede(documents[i], now)
  {
    if MaxVersion(documents) == 0 then documents
    else seq(|documents|, i requires 0 <= i < |documents| => Supersede(documents[i], now))
  }

  /** Whether a contract in these states takes a stamped document. */
  function UploadPolicy(status: string, signing: Option<SigningRow>, reason: string): Outcome {
    if status == ARCHIVED then Err(StateConflict)
    else if signing.Some? && signing.value.status == COMPLETED && TrimSpace(reason) == "" then Err(StateConflict)
    else Ok(())
  }

  function FirstRow(status: string, shipment: string): SigningRow {
    SigningRow(status, 1, shipment, None, 0, false, false, None, None, None)
  }

  function Reopened(row: SigningRow): SigningRow {
    row.(status := PENDING_REVIEW, revision := row.revision + 1, seal := false, signature := false, signedAt := None,
         confirmedVersion := None, confirmedHash := None)
  }

  function Upload(l: Ledger, expected: nat, digest: string, reason: string, now: int): (Ledger, Outcome) {
    if l.contract.None? then (l, Err(NotFound))
    else if UploadPolicy(l.contract.value, l.signing, reason).Err? then (l, UploadPolicy(l.contract.value, l.signing, reason))
    else if expected != MaxVersion(l.documents) then (l, Err(VersionConflict))
    else
      var row := if l.signing.Some? then Reopened(l.signing.value) else FirstRow(PENDING_REVIEW, "");
      (l.(documents := SupersedeAll(l.documents, now) + [Document(expected + 1, digest, None, "DISABLED", "", "")],
          signing := Some(row)), Ok(()))
  }

  function Ship(l: Ledger, shipment: string): (Ledger, Outcome) {
    if l.contract.None? then (l, Err(NotFound))
    else if l.signing.None? then (l.(signing := Some(FirstRow(IN_RETURN, shipment))), Ok(()))
    else
      var row := l.signing.value;
      if row.status in [PENDING_SHIPMENT, IN_RETURN] then
        (l.(signing := Some(row.(status := IN_RETURN, shipment := shipment, revision := row.revision + 1))), Ok(()))
      else (l, Err(StateConflict))
  }

  function Receive(l: Ledger, now: int): (Ledger, Outcome) {
    if l.signing.Some? && l.signing.value.status == IN_RETURN && l.signing.value.received.None? then
      (l.(signing := Some(l.signing.value.(received := Some(now), revision := l.signing.value.revision + 1))), Ok(()))
    else (l, Err(StateConflict))
  }

  function Remind(l: Ledger): (Ledger, Outcome) {
    if l.signing.Some? && l.signing.value.status == IN_RETURN then
      (l.(signing := Some(l.signing.value.(reminders := l.signing.value.reminders + 1,
                                           revision := l.signing.value.revision + 1))), Ok(()))
    else (l, Err(StateConflict))
  }

  predicate Recorded(history: seq<Confirmed>, version: nat) {
    exists i :: 0 <= i < |history| && history[i].version == version
  }

  function Confirm(l: Ledger, c: Confirmation, now: int): (Ledger, Outcome) {
    var newest := Newest(l.documents);
    if l.contract.None? then (l, Err(NotFound))
    else if newest.None? then (l, Err(StateConflict))
    else if c.version != newest.value.version || !EqualFold(TrimSpace(c.hash), newest.value.hash) then (l, Err(VersionConflict))
    else if l.signing.None? then (l, Err(StateConflict))
    else
      var d, row := newest.value, l.signing.value;
      if row.status == COMPLETED then
        if row.confirmedVersion.UnwrapOr(0) == d.version && EqualFold(row.confirmedHash.UnwrapOr(""), d.hash) then (l, Ok(()))
        else (l, Err(StateConflict))
      else if row.status != PENDING_REVIEW then (l, Err(StateConflict))
      else if row.confirmedVersion.Some? && row.confirmedVersion.value != d.version then (l, Err(RowConflict))
      else
        var done := row.(status := COMPLETED, seal := c.seal, signature := c.signature, signedAt := Some(c.signedAt),
                         confirmedVersion := Some(d.version), confirmedHash := Some(d.hash), revision := row.revision + 1);
        (l.(signing := Some(done),
            history := if Recorded(l.history, d.version) then l.history else l.history + [Confirmed(d.version, d.hash, now)]), Ok(()))
  }

  predicate Targets(d: Document, version: nat, hash: string) {
    d.version == version && d.hash == hash
  }

  /** A document was sent to the file gateway, or the gateway answered with a state and a file id or an error text. */
  datatype News = Sent | Answer(state: string, value: string)

  function Gateway(d: Document, news: News): Document {
    match news
    case Sent => d.(gateway := "PENDING", lastError := "")
    case Answer(state, value) =>
      if state == "READY" then d.(gateway := state, fileId := value, lastError := "")
      else d.(gateway := state, lastError := value[..if |value| < 512 then |value| else 512])
  }

  function MarkAll(documents: seq<Document>, version: nat, hash: string, news: News): (r: seq<Document>)
    ensures |r| == |documents|
    ensures forall i :: 0 <= i < |r| ==> r[i] == if Targets(documents[i], version, hash) then Gateway(documents[i], news) else documents[i]
  {
    seq(|documents|, i requires 0 <= i < |documents| =>
      if Targets(documents[i], version, hash) then Gateway(documents[i], news) else documents[i])
  }

  function Mark(l: Ledger, version: nat, hash: string, news: News): (Ledger, Outcome) {
    if exists i :: 0 <= i < |l.documents| && Targets(l.documents[i], version, hash) then
      (l.(documents := MarkAll(l.documents, version, hash, news)), Ok(()))
    else (l, Err(VersionConflict))
  }

  // ----- The repository -----

  method NewestRow(documents: seq<Document>) returns (r: Option<Document>)
    ensures r == Newest(documents)
  {
    r := None;
    for i := 0 to |documents|
      invariant r == Newest(documents[..i])
    {
      assert documents[..i + 1][..i] == documents[..i];
      if r.None? || documents[i].version > r.value.version {
        r := Some(documents[i]);
      }
    }
    assert documents[..|documents|] == documents;
  }

  method HighestVersion(documents: seq<Document>) returns (max: nat)
    ensures max == MaxVersion(documents)
  {
    max := 0;
    for i := 0 to |documents|
      invariant max == MaxVersion(documents[..i])
    {
      assert documents[..i + 1][..i] == documents[..i];
      if documents[i].version > max {
        max := documents[i].version;
      }
    }
    assert documents[..|documents|] == documents;
  }

  method ValidateStampedUploadPolicy(status: string, signingStatus: string, hasSigning: bool, reason: string) returns (ok: bool)
    ensures ok <==> status != ARCHIVED && !(hasSigning && signingStatus == COMPLETED && TrimSpace(reason) == "")
  {
    if status == ARCHIVED {
      return false;
    }
    if hasSigning && signingStatus == COMPLETED && TrimSpace(reason) == "" {
      return false;
    }
    return true;
  }

  class SigningStore {
    var contract: Option<string>
    var documents: seq<Document>
    var signing: Option<SigningRow>
    var history: seq<Confirmed>

    ghost function View(): Ledger
      reads this
    {
      Ledger(contract, documents, signing, history)
    }

    method SaveStampedDocument(expected: nat, digest: string, reason: string, now: int) returns (r: Outcome)
      modifies this
      ensures (View(), r) == Upload(old(View()), expected, digest, reason, now)
    {
      hide TrimSpace;
      if contract.None? {
        return Err(NotFound);
      }
      var hasSigning := signing.Some?;
      var allowed := ValidateStampedUploadPolicy(contract.value, if hasSigning then signing.value.status else "", hasSigning, reason);
      if !allowed {
        return Err(StateConflict);
      }
      var max := HighestVersion(documents);
      if expected != max {
        return Err(VersionConflict);
      }
      if max > 0 {
        for i := 0 to |documents|
          invariant contract == old(contract) && signing == old(signing) && history == old(history)
          invariant |documents| == |old(documents)|
          invariant forall k :: 0 <= k < |documents| ==> documents[k] == if k < i then Supersede(old(documents)[k], now) else old(documents)[k]
        {
          if documents[i].superseded.None? {
            documents := documents[i := documents[i].(superseded := Some(now))];
          }
        }
      }
      assert documents == SupersedeAll(old(documents), now);
      documents := documents + [Document(max + 1, digest, None, "DISABLED", "", "")];
      if hasSigning {
        var row := signing.value;
        signing := Some(row.(status := PENDING_REVIEW, revision := row.revision + 1, seal := false, signature := false,
                             signedAt := None, confirmedVersion := None, confirmedHash := None));
      } else {
        signing := Some(SigningRow(PENDING_REVIEW, 1, "", None, 0, false, false, None, None, None));
      }
      return Ok(());
    }

    method SaveSigningShipment(shipment: string) returns (r: Outcome)
      modifies this`signing
      ensures (View(), r) == Ship(old(View()), shipment)
    {
      if contract.None? {
        return Err(NotFound);
      }
      if signing.Some? && (signing.value.status == PENDING_SHIPMENT || signing.value.status == IN_RETURN) {
        signing := Some(signing.value.(status := IN_RETURN, shipment := shipment, revision := signing.value.revision + 1));
      } else {
        if signing.Some? {
          return Err(StateConflict);
        }
        signing := Some(SigningRow(IN_RETURN, 1, shipment, None, 0, false, false, None, None, None));
      }
      return Ok(());
    }

    method MarkSigningReceived(now: int) returns (r: Outcome)
      modifies this`signing
      ensures (View(), r) == Receive(old(View()), now)
    {
      var changed := 0;
      if signing.Some? && signing.value.status == IN_RETURN && signing.value.received.None? {
        signing := Some(signing.value.(received := Some(now), revision := signing.value.revision + 1));
        changed := 1;
      }
      if changed == 0 {
        return Err(StateConflict);
      }
      return Ok(());
    }

    method RecordSigningReminder() returns (r: Outcome)
      modifies this`signing
      ensures (View(), r) == Remind(old(View()))
    {
      var changed := 0;
      if signing.Some? && signing.value.status == IN_RETURN {
        signing := Some(signing.value.(reminders := signing.value.reminders + 1, revision := signing.value.revision + 1));
        changed := 1;
      }
      if changed == 0 {
        return Err(StateConflict);
      }
      return Ok(());
    }

    method ConfirmSigning(c: Confirmation, now: int) returns (r: Outcome)
      modifies this`signing, this`history
      ensures (View(), r) == Confirm(old(View()), c, now)
    {
      hide TrimSpace, EqualFold;
      if contract.None? {
        return Err(NotFound);
      }
      var document := NewestRow(documents);
      if document.None? {
        return Err(StateConflict);
      }
      var d := document.value;
      if c.version != d.version || !EqualFold(TrimSpace(c.hash), d.hash) {
        return Err(VersionConflict);
      }
      if signing.None? {
        return Err(StateConflict);
      }
      var row := signing.value;
      if row.status == COMPLETED {
        var version := if row.confirmedVersion.Some? then row.confirmedVersion.value else 0;
        var hash := if row.confirmedHash.Some? then row.confirmedHash.value else "";
        return if version == d.version && EqualFold(hash, d.hash) then Ok(()) else Err(StateConflict);
      }
      if row.status != PENDING_REVIEW {
        return Err(StateConflict);
      }
      var changed := 0;
      if row.confirmedVersion.None? || row.confirmedVersion.value == d.version {
        signing := Some(row.(status := COMPLETED, seal := c.seal, signature := c.signature, signedAt := Some(c.signedAt),
                             confirmedVersion := Some(d.version), confirmedHash := Some(d.hash), revision := row.revision + 1));
        changed := 1;
      }
      if changed != 1 {
        return Err(RowConflict);
      }
      var known := false;
      for i := 0 to |history|
        invariant history == old(history) && known == Recorded(history[..i], d.version)
      {
        known := known || history[i].version == d.version;
        assert history[..i + 1] == history[..i] + [history[i]];
        assert history[i].version == d.version ==> history[..i + 1][i].version == d.version;
        assert known ==> Recorded(history[..i + 1], d.version) by {
          if j :| 0 <= j < i && history[..i][j].version == d.version {
            assert history[..i + 1][j].version == d.version;
          }
        }
      }
      assert history[..|history|] == history;
      if !known {
        history := history + [Confirmed(d.version, d.hash, now)];
      }
      return Ok(());
    }

    /** The exact version and hash decide which row the gateway's answer goes to. */
    method MarkStampedDocumentGateway(version: nat, hash: string, news: News) returns (r: Outcome)
      modifies this`documents
      ensures (View(), r) == Mark(old(View()), version, hash, news)
    {
      var changed := 0;
      for i := 0 to |documents|
        invariant |documents| == |old(documents)|
        invariant forall k :: 0 <= k < |documents| ==>
                    documents[k] == if k < i && Targets(old(documents)[k], version, hash) then Gateway(old(documents)[k], news) else old(documents)[k]
        invariant changed > 0 <==> exists k :: 0 <= k < i && Targets(old(documents)[k], version, hash)
        invariant changed >= 0
      {
        if Targets(documents[i], version, hash) {
          documents := documents[i := Gateway(documents[i], news)];
          changed := changed + 1;
        }
      }
      if changed == 0 {
        assert documents == old(documents);
        return Err(VersionConflict);
      }
      assert documents == MarkAll(old(documents), version, hash, news);
      return Ok(());
    }
  }
}

# Contract management: a verified model

A Dafny model of the parts of the contract service whose correctness is hardest to see by reading: the
contract approval workflow, the substitution of text in Word documents and capital amounts, the historical import
protocol with its provisioning ledger and downstream commands, the stamped-document chain with its signing ledger,
contract numbering, payment plans and the approval-rule engine.

The project follows the source's form. Code that computes a value is a function with lemmas. Code that updates
fields, arrays or records in place is a class or a method proved equal, step by step, to a specification function;
the lemmas are about that function. Each database transaction is one step; workers that hold old snapshots, crash or
lose their lease are part of the state, so the run theorems are about every interleaving. Clocks, new ids, the users' input and the
answers of remote systems are parameters of a step and unconstrained.

| files | what they hold |
|---|---|
| `Wrappers`, `Text` | results, options; trimming, ASCII case folding, decimal numbers |
| `PaymentTerms`, `PaymentTexts` | payment plans; the decimals, dates and currencies their texts may be |
| `MoneyText`, `MoneySpelling` | Chinese capital amounts, with a reader that inverts the printer; where their zeros stand |
| `DocxSplice`, `DocxDocument`, `SystemNumber` | right-to-left edits over text nodes, placeholder rendering, the number marker |
| `Numbering` | number rules, allocation, registry |
| `RuleEngine` | condition trees, limits, choice of rule |
| `Approval`, `ApprovalRuns`, `ApprovalEffects`, `ApprovalPassing` | the approval workflow; its runs; what each signal brings about; which nodes and runs can still be approved |
| `Signing`, `SigningRuns` | stamped documents and signing of one contract; its runs |
| `Provision`, `ProvisionEffects` | the CRM provisioning ledger with concurrent workers; what it records |
| `Targets`, `TargetRuns`, `TargetProgress` | downstream commands of one item; their runs; what a release does and how a target gets done |
| `ImportBatch`, `ImportLedger`, `ImportStore`, `ImportRuns` | operations on a batch, on batch and contracts together, the store that carries them out, all runs |
| `ImportEffects`, `ImportSigning` | exactly when each operation on a batch succeeds and what it leaves; what a manual approval rests on |
| `ImportDispatch`, `ImportProgress`, `ImportWithdrawal` | progress of the dispatcher; imports that get done; what a withdrawn confirmation still allows |

Four statements turned out false of the code; each has a concrete counterexample and the exact condition under which
it holds:

- A completed provisioning row is described as final (internal/domain/contract/import_crm_provision.go:82-90), but recording an
  error accepts it: a worker whose row another worker completed between its last advance and its read-back, and whose
  write-back then fails, blocks a completed row (`Provision.CompletedCanBeBlocked`, `Provision.CompletedLeft`).
- The number substitution refuses numbers that contain the marker, which does not keep markers from arising where
  inserted and surrounding text meet (`SystemNumber.GuardIsNotEnough`, `SystemNumber.MarkerGoneExactly`). Numbers issued by
  the allocator never do this (`SystemNumber.IssuedNumberReplacesAll`).
- An active approval node cannot always be passed: a sole assignee who adds himself as a signer leaves no original signer, and
  then no commands whatever pass the node (`ApprovalPassing.StuckFromTheStart`). A reachable node can still be passed exactly
  when somebody is an assignee more often than an added signer (`ApprovalPassing.PassableExactly`). By approvals alone fewer
  nodes can be passed: `ApprovalRuns.ClosableExactly` says which.
- Withdrawing an automatic approval is described as ending every automatic confirmation under way
  (internal/application/contract_import_confirmation.go:310-318), but that step is guarded by the confirmation, not by the
  epoch: once an edit has put the withdrawn confirmation aside, a worker of before approves and confirms after all
  (`ImportWithdrawal.WithdrawnStillConfirms`, `ImportWithdrawal.StaleConfirmsExactly`). Until such an edit the withdrawal holds
  (`ImportWithdrawal.WithdrawnStays`).

## Model

| member | source | states |
|---|---|---|
| PaymentTerms.PaymentAmountMinor | internal/domain/contract/payment_term.go:74-104 | the parser accepts exactly the decimal amounts of at most two fraction digits that fit an int64 in minor units, and returns that amount |
| PaymentTerms.PrintedAmountReadsBack | internal/domain/contract/payment_term.go:63-104 | every amount from 0 to the largest int64 is read back from its printed form |
| PaymentTerms.SpellingIrrelevant | internal/domain/contract/payment_term.go:74-104 | two spellings denote the same amount exactly when they are printed alike |
| PaymentTexts.DecimalsRead | internal/domain/contract/payment_term.go:74-104 | digits with at most two decimals are read at their value up to the largest int64, and with more decimals refused |
| PaymentTexts.OnlyDecimalsAreRead | internal/domain/contract/payment_term.go:74-104 | nothing else is an amount |
| PaymentTexts.BothReadAlike | internal/docx/document.go:375-397 | the capital-amount printer reads the same decimals at the same value |
| PaymentTexts.SeparatorsIgnored | internal/docx/document.go:376-377 | it passes over separators and currency signs |
| PaymentTexts.CalendarExactly | internal/domain/contract/payment_term.go:53-57 | exactly the dates of the calendar from the year 1000 on are accepted, leap days by the 400-year rule |
| PaymentTexts.CurrencyExactly | internal/domain/contract/payment_term.go:36-44 | exactly three letters of either case between blanks are a currency |
| PaymentTerms.NormalizeCurrency | internal/domain/contract/payment_term.go:36-44 | a currency is accepted exactly when it is three letters after trimming and upper-casing |
| PaymentTerms.NormalizePaymentTerms | internal/domain/contract/payment_term.go:29-70 | the loop with its running total, overflow guard and in-place sort returns the canonical plan, or refuses, for terms of any kind |
| PaymentTerms.PlanIgnoresOrder | internal/domain/contract/payment_term.go:48-69 | acceptance and result are the same for every order of the same terms |
| PaymentTerms.PlanConserves | internal/domain/contract/payment_term.go:47-69 | a normalized plan adds up to the contract amount exactly, is strictly sorted, is a permutation of the given terms, and normalizes to itself |
| MoneyText.ChineseFourDigits | internal/docx/document.go:455-476 | the loop over digits with its pending zero prints the recursive four-digit text |
| MoneyText.SplitGroups | internal/docx/document.go:423-434 | cutting from the right gives groups below 10000 whose value is that of the numeral |
| MoneyText.ChineseIntegerUpper | internal/docx/document.go:417-453 | the loop over groups prints the recursive integer text of the value; zero is 零 |
| MoneyText.ChineseMoneyUpper | internal/docx/document.go:375-415 | accepts exactly the valid amounts and prints yuan, jiao and fen, or the error of the source |
| MoneyText.MoneyReadsBack | internal/docx/document.go:375-476 | a left-to-right reader recovers yuan and fen from the printed text for every amount below 10^16 yuan |
| MoneyText.DistinctAmountsPrintApart | internal/docx/document.go:375-476 | different amounts never print alike |
| MoneyText.CapitalTextDenotes | internal/docx/document.go:375-415 | the text printed for a raw amount is read back as the amount the raw text denotes |
| MoneyText.FourTidy | internal/docx/document.go:455-476 | within a group 零 never doubles, never leads and never trails |
| MoneyText.IntegerTidy | internal/docx/document.go:435-453 | nor does it across groups, for every positive integer |
| MoneySpelling.FourZeros | internal/docx/document.go:455-476 | how many zeros a group of four digits has: one before each digit that follows an empty place and does not lead |
| MoneySpelling.IntegerZeros | internal/docx/document.go:435-453 | between groups a zero stands exactly before one that follows an empty group or has fewer than four digits |
| MoneySpelling.FractionShape | internal/docx/document.go:397-415 | 整 exactly when there is no fraction; a zero exactly before fen that follow whole yuan without jiao |
| DocxSplice.Locate | internal/docx/document.go:224-231 | returns the first text node that holds the offset and the position in it, or none when none does |
| DocxSplice.SplicedText | internal/docx/document.go:186-194 | writing the text into the first node, emptying those between and cutting the last is a plain replacement in the concatenation |
| DocxSplice.Splice | internal/docx/document.go:181-194 | one in-place edit left of all former ones replaces exactly its range in the concatenated text and leaves the rest and the original text to the left |
| DocxSplice.ApplyEdit | internal/docx/document.go:181-195 | one round of the backwards loop moves the finished part of the flat replacement one edit to the left |
| DocxSplice.FrontierKept | internal/docx/document.go:171-173 | skipping a match that is no field leaves the flat replacement right |
| DocxDocument.VisibleText | internal/docx/document.go:207-222 | the visible text is the concatenation of the unescaped nodes, and the spans tile it |
| DocxDocument.ValueOf | internal/docx/document.go:163-180 | the supplied value as it is, else the fallback, its capital form where asked for, or the error naming the field |
| DocxDocument.ValueChosen | internal/docx/document.go:166-173 | a supplied value is taken whatever the fallback; a missing one acts as if a non-empty fallback had been supplied |
| DocxDocument.CapitalValueDenotes | internal/docx/document.go:174-180 | a capitalised field's text is read back as the amount of its value; it fails exactly when that is no amount |
| DocxDocument.EditsWrite | internal/docx/document.go:159-195 | what is written for each match: the supplied value, the fallback of a missing one, nothing new for what is no field |
| DocxDocument.FallbacksUnused | internal/docx/document.go:166-173 | fallbacks of supplied fields change no edit and no error |
| DocxDocument.ReplaceFields | internal/docx/document.go:157-195 | right-to-left edits over the nodes equal the flat replacement of every renderable match in the original visible text; it fails exactly when some field has no value, with the rightmost failing field's error |
| DocxDocument.Assemble | internal/docx/document.go:196-204 | the part is written back with the nodes' contents replaced |
| DocxDocument.AssembledReads | internal/docx/document.go:196-204 | reading the written part gives the new texts back, and everything outside the text nodes is unchanged |
| DocxDocument.ReplacePlaceholders | internal/docx/document.go:157-205 | for any split of the text into nodes, the rendered part's visible text is the flat replacement, and the XML outside the text nodes is unchanged |
| DocxDocument.PartRendersAlike | internal/docx/document.go:157-205 | so a whole part renders alike whatever the fallbacks of its supplied fields |
| DocxDocument.EscapeReadsBack | internal/docx/document.go:200 | unescaping undoes escaping |
| DocxDocument.EscapedHasNoTag | internal/docx/document.go:200 | escaped text contains no angle bracket, so it cannot change the structure of the XML |
| SystemNumber.FindMarkers | internal/docx/system_number.go:28-37 | the loop collects the offsets of all successive occurrences |
| SystemNumber.FlatIsReplaceAll | internal/docx/system_number.go:38-53 | the edits at those offsets come to a plain replace-all |
| SystemNumber.FirstReplaced | internal/docx/system_number.go:38-53 | the text up to the first marker is copied, the marker becomes the number, and so on from there |
| SystemNumber.NothingReplaced | internal/docx/system_number.go:38-53 | a text without the marker stays as it is |
| SystemNumber.AcceptedExactly | internal/docx/system_number.go:14-17 | exactly the numbers that are not blank, on one line and without the marker are accepted |
| SystemNumber.WordXmlExactly | internal/docx/document.go:320-322 | the parts touched are exactly the XML files of the word folder |
| SystemNumber.ReplaceInPart | internal/docx/system_number.go:27-66 | in a part, the marker is replaced everywhere in the visible text, however it is spread over nodes, and the rest of the XML stays; it reports a change exactly when there is a marker |
| SystemNumber.ReplaceSystemContractNumber | internal/docx/system_number.go:13-72 | accepts exactly the non-blank numbers without the marker; every Word part is renumbered and every other file is unchanged |
| SystemNumber.NoMarkerMade | internal/docx/system_number.go:38-53 | no marker is left or created across a seam unless number and marker collide |
| SystemNumber.MarkerGoneExactly | internal/docx/system_number.go:38-53 | texts are freed of the marker, all of them, exactly when number and marker do not collide |
| SystemNumber.GuardIsNotEnough | internal/docx/system_number.go:14-17 | a number that passes the source's guard and yet completes a marker |
| SystemNumber.SecondChangesNothing | internal/docx/system_number.go:38-53 | in the visible text, a second substitution, by any number, changes nothing |
| SystemNumber.PartFreed | internal/docx/system_number.go:27-66 | a numbered part, searched and read again, has no marker in its visible text |
| SystemNumber.SecondDocumentUnchanged | internal/docx/system_number.go:13-72 | no Word part of a numbered document has the marker, and a second substitution, by any number, returns the same document |
| SystemNumber.IssuedNumberReplacesAll | internal/domain/contract/number_rule.go:123-132 | every number the allocator can build is accepted, removes all markers and is stable under a second substitution |
| Numbering.NormalizeStable | internal/domain/contract/number_rule.go:65-94 | a normalized rule normalizes to itself |
| Numbering.NormalizeExactly | internal/domain/contract/number_rule.go:65-105 | which rules are accepted, trimmed and with a blank year as YYYY |
| Numbering.BuiltExactly | internal/domain/contract/number_rule.go:159-191 | a number is built exactly for sequences from 1 to the width's last |
| Numbering.BuiltReads | internal/domain/contract/number_rule.go:159-204 | every number begins with the prefix and ends with the suffix; between them stand the year in 0, 2 or 4 digits and the sequence in the width |
| Numbering.KeyInjective | internal/domain/contract/number_rule.go:144-156 | different normalized rules have different key material |
| Numbering.ContractNumberSeqLimit | internal/domain/contract/number_rule.go:182-191 | the loop computes the largest sequence of that width |
| Numbering.NumberInjective | internal/domain/contract/number_rule.go:159-179 | under one rule and year, different sequences give numbers that differ even modulo case |
| Numbering.NumberFits | internal/domain/contract/number_rule.go:159-179 | a sequence within the width always builds a number, within 64 characters; one beyond it is exhausted |
| Numbering.NumberStore.AllocateContractNumber | internal/infrastructure/mysql/contract_number.go:102-145 | the retry loop leaves the sequence table, registry and result of the scan; `Numbering.IssuedReads` says what the number looks like |
| Numbering.NumberStore.UpdateRule | internal/application/contract_number.go:77-147 | saving a rule changes the rule only, and only when its dry run passes |
| Numbering.ScanFindsFirst | internal/infrastructure/mysql/contract_number.go:123-145 | the bounded scan returns the first usable sequence above the watermark, or fails when none is within reach |
| Numbering.AllocationIsFirstFree | internal/infrastructure/mysql/contract_number.go:102-145 | an allocation returns the number of the smallest unregistered sequence above the watermark within 50 tries, registers exactly it, and otherwise leaves everything as it was |
| Numbering.IssuedReads | internal/infrastructure/mysql/contract_number.go:102-145 | an issued number reads as prefix, year, sequence and suffix, and its sequence is the new watermark |
| Numbering.FiftyTries | internal/infrastructure/mysql/contract_number.go:123-145 | an allocation succeeds exactly when one of the next fifty sequences is free |
| Numbering.DryRunIsFirstCandidate | internal/application/contract_number.go:115-147 | a save is refused exactly when the allocator's first candidate is taken; after a save the next allocation issues exactly that candidate, or is exhausted when the sequence is |
| Numbering.IssuedWasFree | internal/infrastructure/mysql/contract_number.go:206-229 | whatever the rule, a number issued was not registered before and is afterwards |
| Numbering.NoNumberRepeats | internal/infrastructure/mysql/contract_number.go:102-229 | over any run of allocations, rule edits, edits stored long after their dry run, and losses of the sequence table no number repeats, modulo case |
| RuleEngine.NumberToInt64 | internal/domain/approval/rule.go:183-194 | the value is the whole number the literal denotes, as an integer or a float in range; none when it denotes no such number |
| RuleEngine.CompareInt | internal/domain/approval/rule.go:196-213 | whether there is an answer depends on the operator alone, and the answer on the sign of the difference alone, among the signs the operator admits |
| RuleEngine.CompareString | internal/domain/approval/rule.go:215-250 | equality and membership modulo trimming, an error for other operators and literals |
| RuleEngine.MatchCondition | internal/domain/approval/rule.go:161-181 | whether a condition errors depends on the condition alone |
| RuleEngine.Match | internal/domain/approval/rule.go:84-124 | a tree errors exactly when it is malformed, for all facts alike; otherwise the value is its meaning |
| RuleEngine.ResultsDecide | internal/domain/approval/rule.go:110-124 | an or-group holds exactly when some member does, any other exactly when all do |
| RuleEngine.ConditionExactly | internal/domain/approval/rule.go:161-250 | which operators and literals each field takes |
| RuleEngine.ConditionMeans | internal/domain/approval/rule.go:161-250 | what a condition says of the fact its field names |
| RuleEngine.FactsNotNamed | internal/domain/approval/rule.go:84-181 | a tree depends on the facts it names, at any depth, and on no others |
| RuleEngine.GroupsExactly | internal/domain/approval/rule.go:84-127 | an empty group and an unknown operator are errors; a blank operator reads as "and" |
| RuleEngine.LimitCounter.Walk | internal/domain/approval/rule.go:143-159 | the early-exit walk succeeds exactly when full group, condition and depth counts stay in bounds, and then has counted them |
| RuleEngine.ValidateLimits | internal/domain/approval/rule.go:129-132 | a tree is accepted exactly when its full counts are in bounds |
| RuleEngine.NestedLimit | internal/domain/approval/rule.go:134-159 | groups may be nested eight deep |
| RuleEngine.ConditionLimit | internal/domain/approval/rule.go:134-159 | there may be fifty conditions, in one group or spread over others |
| RuleEngine.GroupLimit | internal/domain/approval/rule.go:134-159 | there may be fifty groups, the outermost included |
| RuleEngine.ValidateExpression | internal/application/service.go:1671-1676 | the save-time check with empty facts accepts exactly the trees in bounds that never error |
| RuleEngine.StableOrder | internal/domain/approval/rule.go:67-68 | the rules in stable order of falling priority |
| RuleEngine.MatchHighest | internal/domain/approval/rule.go:66-82 | the first enabled rule that holds in that order, so of the highest priority and the earliest of that; none exactly when all pass, an error exactly when a malformed rule is reached; saved rules never error |
| Approval.UniqueValues | internal/workflows/helpers.go:71-84 | duplicates and blanks are dropped, order kept |
| Approval.ReplaceIn | internal/workflows/contract_approval.go:235-246 | the first occurrence of the actor is replaced in place |
| Approval.ApprovalNodePassed | internal/workflows/contract_approval.go:273-312 | a node passes when its mode's signers have signed; with added signers also an original one must have |
| Approval.Workflow.Start | internal/workflows/contract_approval.go:14-36 | a run begins exactly for a valid input, with only the first node active |
| Approval.Workflow.ApplyCommand | internal/workflows/contract_approval.go:173-271 | a command changes the state as specified or is refused and leaves it untouched |
| Approval.Workflow.ApplyApproval | internal/workflows/contract_approval.go:189-202 | the in-place approval is that of the specification, whose effect `ApprovalEffects.ClosingStep` and `SigningStep` state |
| Approval.Workflow.ApplySigners | internal/workflows/contract_approval.go:206-226 | signers are added once each, and the actor counts as having signed |
| Approval.Workflow.ApplyHandover | internal/workflows/contract_approval.go:227-248 | an assignee hands his place over to another |
| Approval.Workflow.ApplyReset | internal/workflows/contract_approval.go:249-267 | a return reopens an earlier node and clears every node from there on |
| Approval.Workflow.HandleSignal | internal/workflows/contract_approval.go:114-167 | what one signal makes of the run, failing activities included |
| Approval.Workflow.HandleWake | internal/workflows/contract_approval.go:95-113 | what one timer wake-up makes of the run |
| ApprovalEffects.RunStarts | internal/workflows/contract_approval.go:14-56 | what a run starts with: first node active, default modes, timeouts and reminders |
| ApprovalEffects.ClosingStep | internal/workflows/contract_approval.go:127-202 | an approval that suffices approves the node, activates the next one at the signal's time or, after the last, approves the run and reports an active contract |
| ApprovalEffects.ApprovedExactly | internal/workflows/contract_approval.go:189-202 | a node becomes approved in a step exactly when such an approval closes it |
| ApprovalEffects.SigningStep | internal/workflows/contract_approval.go:189-202 | any other approval adds a signature, or changes nothing when it is the applicant's or nobody's |
| ApprovalEffects.RejectEnds | internal/workflows/contract_approval.go:203-205 | a rejection by an assignee declines the run and gives the contract back as a draft |
| ApprovalEffects.WithdrawEnds | internal/workflows/contract_approval.go:174-183 | a withdrawal by the applicant, and nobody else, ends the run and leaves the nodes as they are |
| ApprovalEffects.TimerActs | internal/workflows/contract_approval.go:66-113 | the node's own timeout counts if it has one; at the deadline the run expires, before it a due reminder sets the next |
| ApprovalEffects.TransferHandsOver | internal/workflows/contract_approval.go:227-248 | whose place goes to whom, and that the actor's signature goes |
| ApprovalEffects.AddSignAdds | internal/workflows/contract_approval.go:206-226 | the names are listed once each among assignees and added signers, in the mode given, and the actor has signed |
| ApprovalEffects.ReturnReopens | internal/workflows/contract_approval.go:249-267 | a return goes to the first approved earlier node with the id, which becomes active; all from there on lose their signatures |
| ApprovalEffects.ReturnRefused | internal/workflows/contract_approval.go:249-267 | without such a node, or from nobody assigned, it changes nothing |
| ApprovalEffects.UnheardIgnored | internal/workflows/helpers.go:86-97 | signals without id, actor or a required reason, and repeated ones, change nothing |
| ApprovalEffects.UnrecordedFails | internal/workflows/contract_approval.go:127-138 | when the record of an effective command fails, the run fails and reports nothing |
| ApprovalRuns.PositionHolds | internal/workflows/contract_approval.go:39-167 | in every reachable state nodes before the current one are approved and those after it pending, and the outcome is reported at most once |
| ApprovalRuns.OutcomeReported | internal/workflows/contract_approval.go:154-167 | an approved run has every node approved; a run ends exactly when it has completed, once, with the contract active exactly when approved |
| ApprovalRuns.ClosedByAnother | internal/workflows/contract_approval.go:189-202 | every approved node was closed, since it was last touched, by an approve command of a then-current assignee who is not the applicant |
| ApprovalRuns.RosterHolds | internal/workflows/contract_approval.go:196-267 | added signers stay a sub-multiset of the assignees, approvers a subset |
| ApprovalRuns.ClosedBySigners | internal/workflows/contract_approval.go:196-312 | in every run an approved node was closed only once enough had signed it since its last reset: with added signers an original assignee and, by mode, one or all of the added ones; without, everybody unless the mode or the role lets one do |
| ApprovalRuns.SignedSinceReset | internal/workflows/contract_approval.go:196-267 | whoever counts as having signed a node did so since its last reset, as an assignee |
| ApprovalRuns.OncePerCommand | internal/workflows/contract_approval.go:117-138 | a command id that has taken effect never changes the state again |
| ApprovalRuns.OnlyEffectiveSignalsCount | internal/workflows/contract_approval.go:114-138 | dropping all duplicate, malformed and refused signals from any stream gives the same final state |
| ApprovalRuns.DeadlineUnmoved | internal/workflows/contract_approval.go:66-113 | no comment, urge, added signer, transfer or ignored command moves the deadline |
| ApprovalRuns.WakeExpiresOrReminds | internal/workflows/contract_approval.go:95-113 | a wake-up expires the node exactly at or after the deadline, otherwise the number of rounds left falls |
| ApprovalRuns.TimerEnds | internal/workflows/contract_approval.go:66-113 | with nothing decided the run expires after a bounded number of wake-ups, or failed before |
| ApprovalRuns.StuckForever | internal/workflows/contract_approval.go:273-312 | a node whose roster lets no approvals close it stays open under any run of approvals, urges and comments |
| ApprovalRuns.ClosableExactly | internal/workflows/contract_approval.go:273-312 | by approvals alone, all assignees signing in turn close a node and leave it approved exactly when its roster allows it: somebody may still approve and, with added signers, an original one and by mode one or all added ones can sign |
| ApprovalRuns.SoleAssigneeAddsHimself | internal/workflows/contract_approval.go:206-226 | the signal by which a sole assignee leaves a node that no approvals can close, in any live state |
| ApprovalPassing.BarredForever | internal/workflows/contract_approval.go:173-312 | a node without an original assignee is never passed and the run never approved, under any stream of signals and wake-ups, returns included |
| ApprovalPassing.OriginalCloses | internal/workflows/contract_approval.go:206-248 | while somebody is an assignee more often than an added signer, commands of his, applicant or not, and of one signer he brings in close the node, approve it and take the run beyond it |
| ApprovalPassing.PassableExactly | internal/workflows/contract_approval.go:173-312 | in every reachable live state, some further events leave the current node approved if and only if it has an original assignee |
| ApprovalPassing.ApprovableExactly | internal/workflows/contract_approval.go:39-271 | in every reachable live state, some further events approve the run if and only if every node from the current one on has an original assignee |
| ApprovalPassing.ApprovableFromTheStart | internal/workflows/contract_approval.go:14-56 | some run is approved, with an active contract reported, exactly when every node names an assignee |
| ApprovalPassing.StuckFromTheStart | internal/workflows/contract_approval.go:206-226 | a sole assignee who adds himself as the first command leaves a run that nothing that follows ever approves |
| Signing.NewestRow | internal/infrastructure/mysql/contracts_signing_actions.go:129-137 | the row with the highest version |
| Signing.HighestVersion | internal/infrastructure/mysql/contracts_stamped.go:44-49 | the highest version, 0 when there is none |
| Signing.ValidateStampedUploadPolicy | internal/infrastructure/mysql/contracts_policy.go:13-21 | an upload is barred exactly for an archived contract, or for a completed signing without a reason |
| Signing.SigningStore.SaveStampedDocument | internal/infrastructure/mysql/contracts_stamped.go:16-110 | the transaction appends a version, supersedes the old one and resets the signing row, or changes nothing |
| Signing.SigningStore.SaveSigningShipment | internal/infrastructure/mysql/contracts_signing_actions.go:20-87 | shipping creates or advances the signing row, or changes nothing |
| Signing.SigningStore.MarkSigningReceived | internal/infrastructure/mysql/contracts_signing_actions.go:89-103 | conditional update of the signing row |
| Signing.SigningStore.RecordSigningReminder | internal/infrastructure/mysql/contracts_signing_actions.go:105-115 | conditional update of the signing row |
| Signing.SigningStore.ConfirmSigning | internal/infrastructure/mysql/contracts_signing_actions.go:117-187 | confirmation records version, hash and history, or changes nothing |
| Signing.SigningStore.MarkStampedDocumentGateway | internal/infrastructure/mysql/contracts_stamped.go:113-159 | gateway results reach only the row with that version and hash |
| SigningRuns.ChainHolds | internal/infrastructure/mysql/contracts_stamped.go:23-105 | over every run: versions are exactly 1..n, only the newest is not superseded, documents exist exactly in the last two statuses, completion names the newest version and hash |
| SigningRuns.ReachableChains | internal/infrastructure/mysql/contracts_stamped.go:23-105 | so for every run from a contract without documents |
| SigningRuns.ConfirmExactly | internal/infrastructure/mysql/contracts_signing_actions.go:119-186 | a confirmation succeeds exactly for the newest version and hash, records it once and is idempotent; its last conflict branch is never taken |
| SigningRuns.UploadExactly | internal/infrastructure/mysql/contracts_stamped.go:23-105 | an upload succeeds exactly when the contract is not archived, the expected version is the newest and a completed signing comes with a reason |
| SigningRuns.ConfirmStores | internal/infrastructure/mysql/contracts_signing_actions.go:150-186 | a confirmation stores who sealed and signed and when, and keeps the shipment |
| SigningRuns.UploadClears | internal/infrastructure/mysql/contracts_stamped.go:50-105 | an upload appends exactly the new version and clears the last confirmation |
| SigningRuns.ShipExactly | internal/infrastructure/mysql/contracts_signing_actions.go:20-87 | shipping succeeds exactly without documents, and records what was sent |
| SigningRuns.ReturnExactly | internal/infrastructure/mysql/contracts_signing_actions.go:89-115 | a shipment is received once, at its time, and reminded of any number of times |
| SigningRuns.GatewayStores | internal/infrastructure/mysql/contracts_stamped.go:112-159 | what the gateway's news leaves in a document |
| SigningRuns.CourseCompletes | internal/infrastructure/mysql/contracts_signing_actions.go:20-186 | a new contract's paper can be sent, received, uploaded and confirmed |
| SigningRuns.FoldExactly | internal/infrastructure/mysql/contracts_signing_actions.go:138-140 | hashes are compared regardless of case |
| SigningRuns.NothingShipsAfterUpload | internal/infrastructure/mysql/contracts_signing_actions.go:28-115 | once a document is uploaded, shipping, receipt and reminders are refused |
| SigningRuns.MarkIsLocal | internal/infrastructure/mysql/contracts_stamped.go:112-159 | a gateway mark changes one document's gateway fields and nothing else |
| SigningRuns.RunGrows | internal/infrastructure/mysql/contracts_stamped.go:23-105 | no run removes a document or changes its version or hash, and a superseded one stays so |
| SigningRuns.OldVersionNeverConfirmed | internal/infrastructure/mysql/contracts_signing_actions.go:138-140 | after any run of uploads and other operations a version that was not the newest is never confirmed |
| Provision.ProvisionStore.UpsertStartImportCRMProvision | internal/infrastructure/mysql/import_crm_provision.go:90-120 | the row is created once and otherwise returned |
| Provision.ProvisionStore.AdvanceImportCRMProvision | internal/infrastructure/mysql/import_crm_provision.go:127-158 | a valid advance from the expected state and attempt is written, any other refused |
| Provision.ProvisionStore.ResetImportCRMProvision | internal/infrastructure/mysql/import_crm_provision.go:163-186 | a blocked row of the expected attempt returns to a resumable state |
| Provision.ProvisionStore.RecordImportCRMProvisionError | internal/infrastructure/mysql/import_crm_provision.go:192-217 | an error blocks the row when its state and attempt are the expected ones |
| Provision.MoveKeeps | internal/application/contract_import_provision.go:361-556 | every step of every worker keeps: ids are present from their state on, agree with the CRM's one object per key, and are never changed or lost |
| Provision.RunKeeps | internal/application/contract_import_provision.go:361-556 | so does every interleaving of workers, crashes, failures and resets |
| Provision.CannotBothAdvance | internal/infrastructure/mysql/import_crm_provision.go:147-156 | once a worker has advanced the row, no advance from the same attempt's state succeeds later, however the others move in between |
| Provision.CompletedLeft | internal/application/contract_import_provision.go:531-556 | a step leaves the completed state exactly when a worker that read back another's completion then fails in the same attempt |
| Provision.CompletedStays | internal/application/contract_import_provision.go:531-556 | without such a read-back completion is final over every run |
| Provision.CompletedCanBeBlocked | internal/infrastructure/mysql/import_crm_provision.go:192-217 | a run from nothing that completes a row and then blocks it |
| Provision.SoloCompletes | internal/application/contract_import_provision.go:361-556 | from every reachable state a single idle worker can complete the row on its own |
| ProvisionEffects.AdvanceExactly | internal/domain/contract/import_crm_provision.go:227-271 | which advances are taken, and what they change |
| ProvisionEffects.BlockExactly | internal/infrastructure/mysql/import_crm_provision.go:163-217 | when a block is lifted and a failure recorded, with every id kept |
| ProvisionEffects.FoundIsRecorded | internal/application/contract_import_provision.go:415-455 | a customer found is recorded as found, and nothing is created |
| ProvisionEffects.CreatedIsRecorded | internal/application/contract_import_provision.go:415-455 | a customer created is recorded as created, under the one id the CRM has for the key |
| ProvisionEffects.OpportunityIsRecorded | internal/application/contract_import_provision.go:503-535 | so is an opportunity |
| ProvisionEffects.FailureIsRecorded | internal/application/contract_import_provision.go:361-556 | an up-to-date worker's failure blocks the row under its code; a stale one's leaves no trace |
| ProvisionEffects.RetryReusesCustomer | internal/application/contract_import_provision.go:385-415 | a retry of a blocked row starts with the customer recorded |
| Targets.RequeueRejectedProject | internal/application/import_project_retry.go:156-174 | the rejected command is queued again under the same command and payload, in a new epoch |
| Targets.NewFinanceRecovery | internal/application/import_finance_recovery.go:135-162 | the rejected command and payload are archived and a new generation takes their place |
| Targets.TargetStore.ReleaseTask | internal/application/contract_import_targets.go:60-103 | what a release, retry or recovery makes of the stored task, or why it is refused, as `TargetProgress.PlainExactly`, `RetryExactly` and `RecoveryExactly` spell out |
| Targets.TargetStore.QueueImportTarget | internal/infrastructure/mysql/import_targets.go:32-89 | the release is written under the batch's version, to one task only |
| Targets.TargetStore.ClaimImportTarget | internal/infrastructure/mysql/import_targets.go:94-128 | the first task due is claimed under a lease in a new epoch |
| Targets.TargetStore.SaveImportTarget | internal/infrastructure/mysql/import_targets.go:133-183 | a worker's result is saved exactly when epoch, command and generation are still its own and the lease has not run out |
| TargetRuns.RunKeeps | internal/application/contract_import_targets.go:60-103 | the ledger invariant over every run of releases, retries, recoveries, workers and crashes; receipts and completion stay, versions and epochs never fall |
| TargetRuns.OnePayloadPerCommand | internal/application/contract_import_targets.go:220-230 | a command id is never associated with two payloads, whether stored, archived or sent, at two times of any run |
| TargetRuns.FinanceOrdered | internal/application/contract_import_targets.go:331-399 | a finance release exists only with a prepare receipt; its frozen request only after the project is complete; finance complete implies project complete |
| TargetRuns.CompleteIsFinal | internal/application/contract_import_targets.go:60-103 | complete stays complete and a receipt stays the same over every run |
| TargetProgress.PlainExactly | internal/application/contract_import_targets.go:81-103 | a release queues a new command exactly when allowed, of the current version, with something to ask for: under the stable command, in a new epoch, due at once; else the task stays or the stated error comes |
| TargetProgress.RetryExactly | internal/application/contract_import_targets.go:67-75 | a retry queues the same command and payload, exactly on a blocked task still as it was prepared from |
| TargetProgress.RecoveryExactly | internal/application/contract_import_targets.go:76-82 | a recovery queues a new generation with its own payload |
| TargetProgress.RetriedExactly | internal/application/import_project_retry.go:79-88 | which refusals of a project command are retried |
| TargetProgress.RecoveredExactly | internal/application/import_finance_recovery.go:101-116 | which refusals of a finance release are recovered |
| TargetProgress.ClaimedExactly | internal/infrastructure/mysql/import_targets.go:94-128 | which task is claimed, and as what |
| TargetProgress.SavedExactly | internal/infrastructure/mysql/import_targets.go:156-183 | an outcome is saved only under its lease, epoch, command and generation; else it is lost |
| TargetProgress.Delivers | internal/application/contract_import_targets.go:126-180 | a task that is due can be claimed, frozen, sent, answered and saved with the receipt |
| TargetProgress.AllComplete | internal/application/contract_import_targets.go:28-404 | from the confirmation on, project, finance by its two phases, and report can all be completed under their receipts |
| TargetProgress.RefusedProjectCompletes | internal/application/import_project_retry.go:156-174 | a project command refused and retried can complete under the same command and payload |
| TargetProgress.RefusedFinanceCompletes | internal/application/import_finance_recovery.go:135-162 | a finance release refused and recovered can complete under a new generation |
| TargetProgress.LaterWaits | internal/application/contract_import_targets.go:165-170 | a task that must wait is due again after a quarter of a minute for each attempt, at most five minutes |
| ImportBatch.ApplyKeeps | internal/application/contract_import_preview.go:128-359 | every operation of a user on a batch keeps items distinct and the confirmation consistent, loses no contract, fences old versions and epochs and keeps a pinned policy |
| ImportStore.BatchStore.EditableImport | internal/application/contract_import_preview.go:131-151 | when a batch may be edited, and what editing resets |
| ImportStore.BatchStore.UploadImportSource | internal/application/contract_import_preview.go:180-210 | a source is added to an editable batch |
| ImportStore.BatchStore.CheckManifest | internal/domain/contract/import.go:163-179 | which manifests are valid |
| ImportStore.BatchStore.ReadLines | internal/application/contract_import_preview.go:286-319 | lines are matched with the items of the batch up to the first refused one; items keep ids and contracts |
| ImportStore.BatchStore.FirstDropped | internal/application/contract_import_preview.go:320-326 | whether an item with a contract would be dropped |
| ImportStore.BatchStore.MarkImportCorrection | internal/application/contract_import_preview.go:348-359 | the item is marked for correction and the batch left partial |
| ImportStore.BatchStore.SetImportManifest | internal/application/contract_import_preview.go:257-343 | the manifest replaces the items; when it would change or drop one that has a contract, that item is marked and saved and a correction asked for |
| ImportBatch.CorrectionExactly | internal/application/contract_import_preview.go:286-341 | a correction is asked for exactly when the manifest contradicts an item that has a contract; then one such item is marked and all others stay, else the items are those of the manifest |
| ImportEffects.ManifestExactly | internal/application/contract_import_preview.go:257-334 | when a manifest is accepted or asks for a correction, rather than refused |
| ImportEffects.EditableExactly | internal/application/contract_import_preview.go:131-151 | when a batch may be edited, and what is put aside |
| ImportEffects.SourceExactly | internal/application/contract_import_preview.go:180-250 | when a source is taken and what it resets |
| ImportEffects.PreviewExactly | internal/application/contract_import_preview.go:458-568 | a batch is previewed exactly when nothing was found wrong; what becomes of each item |
| ImportEffects.CommitExactly | internal/application/contract_import_commit.go:13-59 | a commit queues exactly a live preview of normal items, for its creator |
| ImportEffects.CommitTwice | internal/application/contract_import_commit.go:28-33 | the same commit again changes nothing |
| ImportEffects.FreezeExactly | internal/application/contract_import_confirmation.go:146-199 | a submission queues exactly a live preview of historical items; what confirmation it freezes under AUTO and under MANUAL |
| ImportEffects.ActExactly | internal/application/contract_import_confirmation.go:244-320 | when a command is recorded, and that withdrawing an AUTO approval ends it |
| ImportEffects.ActTwice | internal/application/contract_import_confirmation.go:272-280 | a command repeated changes nothing |
| ImportEffects.ControlExactly | internal/application/contract_import_commit.go:83-130 | when a batch is paused or resumed, and which items a resume makes ready again |
| ImportEffects.CreationExactly | internal/infrastructure/mysql/contract_import.go:186-244 | when an item gets a contract, and which |
| ImportEffects.CompletionExactly | internal/application/contract_import_dispatcher.go:320-338 | an item is completed exactly in the running epoch |
| ImportEffects.PolicyExactly | internal/application/contract_import_auto_approve.go:121-133 | by which policy a worker goes |
| ImportEffects.AutoConfirmExactly | internal/infrastructure/mysql/contract_import_auto_approve.go:28-152 | exactly when an item is confirmed by itself, and what confirmation there is then |
| ImportEffects.ClaimExactly | internal/infrastructure/mysql/contract_import.go:159-181 | which batches are claimed, and for how long |
| ImportEffects.FinishExactly | internal/application/contract_import_dispatcher.go:93-138 | how a dispatch leaves the batch |
| ImportEffects.PassedOver | internal/application/contract_import_dispatcher.go:190-203 | which items dispatches pass over |
| ImportEffects.QueuedOnlyFrom | internal/application/contract_import_commit.go:13-130 | a batch starts to execute only by a commit or submission of a live preview, or by resuming what was committed |
| ImportEffects.ExecutedWasCommitted | internal/application/contract_import_commit.go:13-130 | over every run, what executes is the revision committed, and a previewed batch has nothing blocked |
| ImportSigning.ApprovalRests | internal/infrastructure/mysql/import_confirmation.go:60-101 | over every run, a manual approval rests on a stored approval of every role by one of its assignees, and on nobody's objection |
| ImportSigning.RoundExactly | internal/infrastructure/mysql/import_confirmation.go:20-111 | the outcome of a round: lapsed, withdrawn, waiting, rejected, approved or pending; and that only an approval confirms, every item with its contract |
| ImportSigning.NextRoundApproves | internal/infrastructure/mysql/import_confirmation.go:60-101 | in every reachable state, once every role has approved and nothing stands against it, the next round approves and confirms everything |
| ImportSigning.ConfirmOneExactly | internal/infrastructure/mysql/import_confirmation.go:168-223 | an item is confirmed once; one that cannot be stops the round |
| ImportEffects.RoundRefused | internal/infrastructure/mysql/import_confirmation.go:32-43 | a round about anything but the contents submitted is refused; an ended confirmation is left alone |
| ImportStore.BatchStore.PreviewImport | internal/application/contract_import_preview.go:458-568 | findings are written to the items of the revision previewed |
| ImportStore.BatchStore.CommitImport | internal/application/contract_import_commit.go:13-59 | a previewed batch is queued once per key and token |
| ImportStore.BatchStore.ControlImport | internal/application/contract_import_commit.go:83-130 | pausing and resuming, with what resuming resets |
| ImportStore.BatchStore.ClaimImportBatch | internal/infrastructure/mysql/contract_import.go:159-181 | a claimable batch is claimed under a lease in a new epoch |
| ImportStore.BatchStore.CommitImportDraft | internal/infrastructure/mysql/contract_import.go:186-244 | one transaction registers the source identity, creates the contract or returns the one it has, and records it with the item |
| ImportStore.BatchStore.MarkImportItemComplete | internal/application/contract_import_dispatcher.go:320-338 | an item of the running epoch is completed |
| ImportStore.BatchStore.NextOpenItem | internal/application/contract_import_dispatcher.go:74-83 | the first item neither complete nor terminal |
| ImportStore.BatchStore.EndDispatch | internal/application/contract_import_dispatcher.go:93-138 | the state a dispatch leaves behind, or a conflict in another epoch |
| ImportStore.BatchStore.ConfirmOne | internal/infrastructure/mysql/import_confirmation.go:168-223 | one item is confirmed with its contract, or why not |
| ImportStore.BatchStore.ConfirmAll | internal/infrastructure/mysql/import_confirmation.go:83-102 | all items are confirmed, or none |
| ImportStore.BatchStore.TallyCommands | internal/infrastructure/mysql/import_confirmation.go:63-79 | the state of a round after its queued commands |
| ImportStore.BatchStore.GrantRoles | internal/infrastructure/mysql/import_confirmation.go:63-79 | the roles one command approves |
| ImportStore.BatchStore.AdvanceImportConfirmation | internal/infrastructure/mysql/import_confirmation.go:20-111 | a round of the manual confirmation, in one transaction, with the outcome `ImportSigning.RoundExactly` states |
| ImportStore.BatchStore.AutoConfirmHistoricalImportItem | internal/infrastructure/mysql/contract_import_auto_approve.go:28-152 | an item confirmed by itself under the pinned or live policy |
| ImportStore.BatchStore.SubmitImportConfirmation | internal/application/contract_import_confirmation.go:146-199 | submission freezes the confirmation and pins the policy read in the same transaction |
| ImportStore.BatchStore.ActImportConfirmation | internal/application/contract_import_confirmation.go:244-320 | approve, reject and withdraw on the frozen confirmation |
| ImportLedger.CommitDraftSound | internal/infrastructure/mysql/contract_import.go:186-244 | creating a contract keeps one contract and one digest per source identity and changes no other item |
| ImportLedger.AdvanceSound | internal/infrastructure/mysql/import_confirmation.go:20-111 | a manual round keeps items, contracts, identities and policy |
| ImportLedger.AutoConfirmSound | internal/infrastructure/mysql/contract_import_auto_approve.go:28-152 | an automatic confirmation keeps them, too |
| ImportLedger.ManualIsLeftAlone | internal/infrastructure/mysql/contract_import_auto_approve.go:69-114 | an automatic confirmation never changes a batch pinned to manual |
| ImportRuns.NextKeeps | internal/infrastructure/mysql/contract_import.go:135-244 | the invariant of batches, identities, contracts and worker snapshots is kept by every step |
| ImportRuns.RunKeeps | internal/infrastructure/mysql/contract_import.go:135-244 | and by every run, which loses nothing recorded |
| ImportRuns.OneContractPerRecord | internal/infrastructure/mysql/contract_import.go:186-244 | two items, in any batches and at any two times of a run, have the same contract exactly when they have the same source and record, and then the same digest |
| ImportRuns.ContractsLast | internal/application/contract_import_preview.go:276-334 | an item that has a contract is never dropped and keeps contract, digest and source record |
| ImportRuns.StaleWorkerFails | internal/infrastructure/mysql/contract_import.go:186-198 | the writes of an epoch that was ever superseded fail at all later times |
| ImportRuns.SameVersionSameBatch | internal/infrastructure/mysql/contract_import.go:64-77 | the version identifies the contents of a batch: an unchanged version means an unchanged batch |
| ImportRuns.PolicyFrozen | internal/application/contract_import_confirmation.go:153-199 | a pinned policy never changes; AUTO is only ever approved or withdrawn; no item is confirmed unless the confirmation is approved, so none while it is withdrawn; MANUAL approved means all confirmed |
| ImportRuns.ManualStays | internal/infrastructure/mysql/contract_import_auto_approve.go:69-114 | over every run, a batch whose confirmation is MANUAL now is left as it is by every automatic confirmation, stale workers included; a worker that claimed a batch under MANUAL sends none |
| ImportWithdrawal.WithdrawnStays | internal/application/contract_import_confirmation.go:279-318 | over every run a withdrawn confirmation stays and nothing is confirmed until an edit puts it aside |
| ImportWithdrawal.AutoConfirmsExactly | internal/infrastructure/mysql/contract_import_auto_approve.go:49-125 | an item that is in order is confirmed automatically exactly when the batch has no confirmation or an approved one |
| ImportWithdrawal.StaleConfirmsExactly | internal/infrastructure/mysql/contract_import_auto_approve.go:69-114 | after a withdrawal, a worker that claimed the batch under AUTO, in whatever epoch, confirms exactly when the confirmation has been put aside or replaced by an approved one; before, its step changes nothing |
| ImportWithdrawal.WithdrawnStillConfirms | internal/application/contract_import_preview.go:135-147 | a run in which a withdrawn batch is edited and a worker of a superseded epoch then confirms its item and leaves the draft approved |
| ImportDispatch.CreationFits | internal/infrastructure/mysql/contract_import.go:186-244 | creating the contract of the open item touches that item only, wherever the dispatch fails after it |
| ImportDispatch.ConfirmationFits | internal/infrastructure/mysql/contract_import_auto_approve.go:69-152 | so does confirming it by itself |
| ImportDispatch.CompletionFits | internal/application/contract_import_dispatcher.go:320-338 | and completing it makes it the one item finished by the dispatch |
| ImportDispatch.DispatchAdvances | internal/application/contract_import_dispatcher.go:61-139 | every dispatch, whether it ends well or fails before or after a write, finishes one more item or leaves the claimable states; terminal items never block later ones |
| ImportDispatch.DispatcherLeaves | internal/application/contract_import_dispatcher.go:61-139 | a claimable batch with k open items leaves QUEUED and RUNNING within k+1 dispatches however these end |
| ImportDispatch.ShiftIsTurn | internal/application/contract_import_dispatcher.go:43-139 | among all batches and workers, a worker's claim, its moves on the open item and its end make one such dispatch |
| ImportDispatch.ShiftsLeave | internal/application/contract_import_dispatcher.go:43-139 | in the world of all batches and workers, a batch with k open items leaves QUEUED and RUNNING within k+1 dispatches by whichever workers, however these end |
| ImportProgress.BatchCompletes | internal/application/contract_import_dispatcher.go:43-338 | from every state in order, one idle worker brings a claimable batch of doable items to its end, with a contract for every item |
| ImportProgress.AnyManifestImports | internal/application/contract_import_preview.go:257-568 | every manifest of new normal records can be imported to the end |

## Left out

- Legacy numbering: with no rule row the allocator falls back to a format outside the registry; the model returns that outcome and says nothing of the number. Negative years are not modelled.
- Numbering.NumberStore.UpdateRule: the source reads, checks and saves a rule in separate transactions, so that an allocation in between can take the candidate checked; the method is one step. `Numbering.NoNumberRepeats` includes rules stored late.
- Text positions are characters of valid text, not bytes; case folding is ASCII only.
- Finding text nodes and placeholders by regular expression, placeholder syntax, ZIP, XML parsing and HTML unescaping are parameters; of unescaping only that it undoes escaping is required.
- SHA-256 digests and generated ids are taken as injective and fresh.
- RuleEngine.NumberToInt64: floating-point literals are real numbers; NaN and the platform-dependent conversion of values outside int64 are not modelled.
- Error texts are merged into error kinds; notifications, audits, outboxes, metrics, failure reasons and update times are not part of the model.
- Permission checks, except those that compare the caller with the creator or a frozen assignee list.
- The `OpportunityCreated` flag, which a retry overwrites, and the batch id in the provisioning row.
- Provision: the customer lookup may find a customer nobody provisioned; the remote CRM is one object per idempotency key, any call of which may fail. The branches that stop because ledger and batch disagree on whether the contract exists are not modelled.
- TargetRuns.RunKeeps: a save of a frozen request that is stored but reported as failed is not a step; a worker saves or fails to.
- Targets: validation of project and finance replies, snapshots and baselines is a free outcome of a step; the report target has no phases of its own beyond claim and save; responsibility activation is not modelled.
- Writes of the automatic-approval setting are not steps of their own: the setting read when a policy is frozen, or live, is an arbitrary value.
- Batches' source files and their cleanup; project-delivery marks on stamped documents; encryption of phone numbers.
- ImportStore.BatchStore.FirstDropped: when several items would be dropped the source marks the one its map iteration meets first; the model takes the first in order.
- ImportStore.BatchStore.PreviewImport: the source reads, computes and then writes under the version it read; the model is one step, which `ImportRuns.SameVersionSameBatch` justifies. The same holds of the submission of a confirmation.
- ImportDispatch.DispatcherLeaves: excludes results of downstream targets arriving while the batch executes, which may move its state; those are steps of the runs in `ImportRuns`.
- Validation of a record's fields during preview and execution, which is a list of findings here.
- The status-change workflow and the contract status table.

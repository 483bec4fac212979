# Digital Post registration for citizens with an unknown address — reconciliation model

Once per run, the robot does the following:

- It looks up every citizen with an unknown address in the municipality's address mart.
- For each citizen, it asks the public service platform whether the citizen is registered for Digital Post and for NemSMS.
- It compares the answers with what an earlier run stored in the orchestrator's work queue.
- Each queue element has a reference and a payload:
  - the reference is a pseudonym, the SHA-256 hex digest of the CPR number followed by the first name;
  - the payload holds the two flags seen last time.

For each queue element, the run does exactly one of three things:

- it deletes the element when its reference is no longer current;
- it leaves the element alone when both flags are unchanged;
- it replaces the element when a flag changed. It deletes the element, creates one with the current flags, and records a change row (CPR, Digital Post, NemSMS).

Each matched reference is popped from the status dictionary. When any change row exists, one email is sent with a worksheet: a header row followed by the change rows. Finally, the run creates a queue element for every citizen that no queue element matched.

The model has seven modules:

- `Results` (`results.dfy`): the `Option` and `Result` types; an `Err` stands for a raised exception.
- `Pseudonym` (`pseudonym.dfy`): the pseudonym key.
- `Registration` (`registration.dfy`): building the status dictionary. The lookups can raise.
- `Report` (`report.dfy`): the change worksheet as a list of rows.
- `Queue` (`queue.dfy`): the work queue, as a class `Orchestrator`. Its fields are:
  - `elements`;
  - `nextId`;
  - an ordered `events` log of deletions, creations and the email.
- `Reconciliation` (`reconciliation.dfy`): the run itself.
- `Sequences` (`sequences.dfy`): identities of sequence concatenation used by the queue proofs.

The reconciliation loop is specified by a pure function `Walk`, which folds one step per queue element over the snapshot. `FateOf` is an independent, declarative description of what happens to the j-th element. It is decided from the original dictionary and the earlier elements of the snapshot. The imperative `Process` is proved against `Walk`, and the lemmas relate `Walk` to `FateOf` and to the final state of the queue.

Facts about the run that the model keeps:

- The program sends no SMS or other notification to citizens; the only message is the report email.
- An element whose flags are unchanged is not rewritten (`robot_framework/process.py:42`).
- A citizen seen for the first time gets a queue element but no change row (`robot_framework/process.py:56-57`).
- A raising lookup is not caught and ends the whole run before the queue is touched (`robot_framework/process.py:127-129`).
- A change row holds the CPR number and the two flags as booleans.
- The report is sent after the loop has rewritten the queue. When the recipient is missing from the process arguments, or the mail server refuses the email, the run ends there: the unmatched citizens get no element, and the changed elements already hold their new flags, so the next run does not report those changes again.

## Model

| member | source | states |
|---|---|---|
| Pseudonym.KeyDependsOnConcatenationOnly | robot_framework/process.py:81-90 | the key is the digest of the CPR number followed directly by the first name; inputs with the same concatenation get the same key |
| Pseudonym.SameKeyIffSamePerson | robot_framework/process.py:81-90 | for CPR numbers of one length and a digest without a collision on these two inputs, two citizens get the same key exactly when both the CPR number and the first name agree |
| Pseudonym.ConcatenationIsAmbiguous | robot_framework/process.py:88 | without the fixed CPR length, the unseparated concatenation lets two different (CPR, name) pairs share a key |
| Registration.GetRegistrationStatusFromQuery | robot_framework/process.py:111-132 | the loop over the rows yields `StatusMap`: the dictionary after all rows, or the first exception raised by a lookup (Digital Post is asked before NemSMS) |
| Registration.StatusMapErrorPersists | robot_framework/process.py:127-129 | once a lookup has raised, the later rows cannot change the outcome |
| Registration.StatusMapFailsIffLookupFails | robot_framework/process.py:127-129 | the query raises exactly when some lookup for some row raises |
| Registration.StatusMapKeys | robot_framework/process.py:126-132 | when nothing raises, the dictionary has an entry for exactly the pseudonyms of the rows |
| Registration.StatusMapLastRowWins | robot_framework/process.py:130-131 | the entry for a pseudonym holds both looked-up flags and the raw CPR of the last row with that pseudonym; later rows overwrite earlier ones |
| Report.WriteDataToOutputExcel | robot_framework/process.py:60-72 | the sheet is the header `CPR`, `Digital Post`, `NemSMS` followed by one row per change, in order, so it has one row more than the data |
| Report.ReportDeterminesRows | robot_framework/process.py:69-72 | the sheet determines the change list: two change lists never give the same sheet |
| Queue.RemoveId | robot_framework/process.py:43 | deleting by id keeps exactly the elements with another id |
| Queue.RemoveAbsentId | robot_framework/process.py:48 | deleting an id that no element has leaves the queue as it is |
| Queue.RemoveUniqueId | robot_framework/process.py:43 | with unique ids, deleting an element's id removes that element only and keeps the order of the rest |
| Queue.DistinctAfterRemove | robot_framework/process.py:43 | deleting keeps the ids unique |
| Queue.Orchestrator.GetQueueElements | robot_framework/process.py:29 | the snapshot is the current queue |
| Queue.Orchestrator.DeleteQueueElement | robot_framework/process.py:43 | the queue loses the element with that id, the deletion is logged, and ids stay unique |
| Queue.Orchestrator.CreateQueueElement | robot_framework/process.py:44 | one element with a fresh id, the given reference and the given payload is appended, and the creation is logged |
| Queue.Orchestrator.SendStatusEmail | robot_framework/process.py:93-108 | the send succeeds exactly when the mail server accepts it; then the email, with its recipient and attachment, is logged, and otherwise nothing is; the queue is unchanged either way |
| Reconciliation.StepByFate | robot_framework/process.py:37-48 | the step for each snapshot element follows its fate. A stale element (reference not current, or already met earlier in the snapshot) is deleted and nothing else happens. An unchanged one is kept and popped. A changed one is deleted and replaced by an element with the same reference and the current flags, adds one change row with the current values, and is popped |
| Reconciliation.WalkRemaining | robot_framework/process.py:39-46 | after a prefix of the snapshot, the dictionary holds exactly the current entries whose reference is not in that prefix, with their values unchanged |
| Reconciliation.WalkSettledElements | robot_framework/process.py:40-46 | every element kept or created by the loop carries a current reference, already popped, and that reference's current flags |
| Reconciliation.WalkSettledCounts | robot_framework/process.py:46 | every popped reference has exactly one element kept or created by the loop, so duplicate references in the snapshot collapse |
| Reconciliation.SettledAndCreatedMirror | robot_framework/process.py:37-57 | the kept and replaced elements, followed by one element per unmatched key, hold exactly one element per current key with that key's flags. No stale reference is left and none is missing |
| Reconciliation.ChangedPositionsExact | robot_framework/process.py:37-45 | the list of changed positions holds every position whose fate is changed, and only those, in increasing order |
| Reconciliation.ChangesFollowQueueOrder | robot_framework/process.py:37-45 | the change list has one row per changed element, in snapshot order, each with the current values of that element's reference |
| Reconciliation.ReportSentIffSomeElementChanged | robot_framework/process.py:51-53 | the change list is non-empty, and so the report is sent, exactly when some snapshot element has fate changed |
| Reconciliation.MirrorElementUnchanged | robot_framework/process.py:39-42 | in a queue that holds one element per current key with that key's flags, every element meets its key for the first time with equal flags |
| Reconciliation.UnchangedWalkKeepsAll | robot_framework/process.py:42 | while every element's flags are unchanged, the loop keeps each element as it is, with no deletion, creation or change row |
| Reconciliation.ReconcilingAMirrorChangesNothing | robot_framework/process.py:37-48 | reconciling a queue that a run left behind, against the same dictionary, keeps every element, matches every key and does nothing else |
| Reconciliation.StepOnQueue | robot_framework/process.py:42-48 | one step acts on the whole queue as the source does: a deletion by id, then a creation appended at the end, or nothing |
| Reconciliation.ReconcileElement | robot_framework/process.py:38-48 | the loop body takes the queue, the log, the change list and the dictionary from the state after `i` snapshot elements to the state after `i + 1` |
| Reconciliation.ReconcileQueue | robot_framework/process.py:37-48 | after the loop, the queue holds the kept and replaced elements, the log and the change list are those of `Walk`, and the dictionary holds the unmatched entries |
| Reconciliation.CreateUnmatched | robot_framework/process.py:56-57 | the final loop appends exactly one element per unmatched key, with that key's flags, logs each creation and uses one fresh id per creation |
| Reconciliation.ReportLostAfterFailedSend | robot_framework/process.py:37-57 | after a run that stopped at the report, a next run with the same statuses keeps every element in its loop over the queue, with no deletion, replacement or change row there, so the changes of the stopped run are never reported; that loop leaves unmatched exactly the keys the stopped run left unmatched, which the next run's final loop then creates |
| Reconciliation.RewalkLeavesSameUnmatched | robot_framework/process.py:39-46 | walking the elements a run settled, against the same dictionary, pops exactly the references that run popped, so the same keys stay unmatched |
| Reconciliation.Process | robot_framework/process.py:20-57 | if a lookup raises, the run fails and leaves the queue and the log untouched. If there are changes and the recipient is missing or the delivery is refused, the run fails with that error, and the queue and log are exactly those left by the loop. Otherwise the final queue mirrors the dictionary, ids are handed out one per creation, and the log is the loop's deletions and creations, then one email to the recipient whose attachment is the report of the change list (only if that list is non-empty), then the creations for the unmatched keys |

## Left out

- Orchestrator transport and logging (`log_trace`, the connection, the queue name). The queue is an in-memory sequence with an event log. The queue's store, and whether `get_queue_elements` filters by status, are not part of this model.
- Process arguments, `KombitAccess` and the certificate. The two remote `is_registered` calls are one lookup function passed in as a parameter; a raised exception is an `Err` result.
- The ODBC connection and the SQL query against the address mart. The rows, as (CPR, first name) pairs, are an input.
- The SHA-256 hex digest. The hash is an arbitrary function passed in as a parameter.
- The workbook file and its byte buffer. Only the logical sheet rows are modelled.
- SMTP and the email's sender, subject, body and attachment file name. Only the recipient and the sheet are recorded.
- JSON encoding and decoding of queue payloads. A payload is a pair of booleans.
- The interactive `__main__` entry point.
- `robot_framework/config.py` holds only constants. It is not part of this model: `config.QUERY` there is unused, and `config.QUEUE_NAME` is not defined there.
- Reconciliation.CreateUnmatched: the order in which new elements are created follows the dictionary's insertion order in the source. The model picks keys in an arbitrary order, so its contract states one element per key and not their order.
- Reconciliation.Process: the exception raised by a lookup or by the mail server becomes an `Err` carrying its error text. Which exception type it was, and how the caller reports it, are not modelled.
- Reconciliation.Process: the queue calls (`get_queue_elements`, `delete_queue_element`, `create_queue_element`) are assumed never to raise. A raise part-way through the loop or the final creations, which would leave the queue partly rewritten, is not modelled.
- Reconciliation.Process: the snapshot at `robot_framework/process.py:29` is assumed to hold every element of the queue. The call passes only the queue name; whether the orchestrator library caps the number of elements it returns is not part of this model, and with such a cap the final queue would not mirror the dictionary.
- Reconciliation.Process: a missing `service_cvr` or `certificate_path` argument, which would raise before the snapshot, is not modelled; only the missing `data_recipient` is.

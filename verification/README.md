# Verified models of the workers' coordination protocols

This project models, in Dafny, the parts of the repository whose correctness depends on more than one
function at a time, and proves what they promise over every run. `dafny verify dfyconfig.toml` checks all of it.

## How it is built

A concurrent part is a state machine: a `World`, `Ledger`, `Desk`, `Store` or `System` value, an `Apply` that performs one
step, and `Exec` over a sequence of steps. A step is one SQL statement or one native call where the source
talks to D1 or to the workflow engine, and one stretch of code between two awaits where it runs inside a
Durable Object. A step that is not possible does nothing, so every sequence of steps is a run. Crashes are callers that take no further
step, lost acknowledgements are native calls whose effect and whose answer are separate steps, and recreations drop
everything that is only in memory. Ghost history records the native calls, tokens, nonces, epochs, dispatches and requests.

For each machine a `...Safety` module proves the invariant and a relation between an earlier and a later state, step by step and
then over runs; a `...Theorems` module states the promises. Beside it stands a class with the source's own fields, whose
methods are the source's functions with their branches and loops. Its ghost `log` is the run so far, and `Valid` says that the fields
are what the machine reaches by it: every execution of these methods is a run, so what is proved of runs holds of them.
`Await` is the interleaving point, a method whose contract allows any further steps of everyone else.

An `...Answers` module says of every step what it answers, writes and leaves, from the stored rows alone and in numbers, so
that neither a test nor an answer of the machine can be another one than the source's; and it states the laws between calls, such as
what a retry finds. For the two kinds of child runs `ChildAlone` and `DetachedAlone` go further: they hold a table of results by
row and instance, and prove that a call which is left alone from any point on, however it was overtaken before, ends as the table says.

| part | machine | invariant | promises | code |
|---|---|---|---|---|
| awaited child runs | `ChildProtocol` | `ChildSafety` | `ChildTheorems`, `ChildMisreports`, `ChildAlone` | `ChildWorkers` |
| detached child runs | `DetachedChild` | `DetachedChild` | `DetachedChild`, `DetachedAlone` | `DetachedWorkers` |
| run capacity | `Capacity` | `CapacityTheorems` | `CapacityTheorems`, `CapacityAnswers` | `RunTable` |
| browser intent ledger | `IntentLedger`, `IntentKeys` | `IntentSafety` | `IntentTheorems`, `IntentAnswers` | `IntentDesk` |
| browser endpoint | `BrowserEndpoint` | `BrowserSafety`, `BrowserSockets` | `BrowserTheorems`, `BrowserAnswers` | `BrowserOwner` |
| endpoint and ledger together | `BrowserDispatch` | `BrowserDispatch` | `BrowserDispatch` | |
| browser deadlines | `DeadlineRuns` | `DeadlineRuns` | `DeadlineRuns`, `DeadlineAnswers` | `EndpointDeadlines` |
| remote-control grants and sessions | `GrantStore` | `GrantSafety` | `GrantTheorems`, `GrantAnswers` | `OwnerStore` |
| remote-control pairings | `PairingRequests` | `PairingRequests` | `PairingRequests`, `PairingAnswers` | `PairingRequests` |
| grants and pairings together | `PairedApproval` | `PairedApproval` | `PairedApproval` | `PairedApproval` |
| SSH receipts, sessions and leases | `SshOperations` | `SshSafety` | `SshTheorems`, `SshAnswers` | `SshDesk` |
| SSH output ring, host pages | | | `OutputRing`, `HostPages` | `OutputRing`, `HostPages` |
| base-58 keys | `Positional` | | `Base58` | `EnvshareKeys` |
| chunked bodies | | | `BinaryChunk` | `BinaryChunk` |

`Common` and `EndpointState` hold what several of them share. A machine "together" is the product of two: it takes a step of either,
except where the source does both in one step.

## What the code does not quite promise

Where a promise is false of the code, the code was kept, a lemma gives an input that shows it, and another says exactly when it holds.

- `startReservedAwaitedChild` answers `cancelled_before_start` after a lost first claim by looking at `outcome` alone
  (`child-capacity.ts` 309-311). A starter with an old view gives this answer for a child that another worker created and a
  third terminated (`StaleStarterMisreports`). It is right exactly when `start_state` is not past the dispatch fence (`LostClaimAnswerExact`).
- `cancelAwaitedChild` answers `terminal_confirmed` for outcome `cancelled` (`child-cancel.ts` 23-24). Other entry points write that
  outcome too (`store.ts` 680-683, for one), and then the instance may be live (`ForeignCancelMisreported`). The answer is right, now and
  for good, if and only if the `start_state` of the row, which the same query could read, is `cancelled` (`ConfirmedExactly`).
- The branch of `child-capacity.ts` 360-370 for an intent that won in `creating` never changes a row (`AbandonNeverFires`).
- The at-most-once token of `intents.ts` needs more than a clock that never runs back: the `now` of an admission is taken
  before its awaits. The promise holds exactly if no caller acts on a `now` older than seven days less five and a half minutes (`OncePerKeyExactly`).
- `/local-stop` computes its deadline from a row read before the credential is hashed (`coordinator.ts` 412-441). If the socket closes
  meanwhile, the Stop moves the deadline forward (`LocalStopLengthens`). `LocalStopExact` gives the condition on the row that was read, the
  time of the request and that of the oldest one that overlaps it, under which no run does this, and a run for every row that fails it.
- `/local-stop` answers `stopped` in the branch of that row, too. One that read the endpoint stopped leaves it enabled when an activation
  completes during the hash; it always stops the endpoint if and only if it read it enabled (`LocalStopStopsExactly`).
- A `/local-stop` that waits for its hash brings an endpoint back that is revoked meanwhile, as stopped: revoked is final if and only if no
  such request is under way (`RevokedExactly`).
- `startSession` stores a completed receipt and then sets an alarm; when that fails it overwrites the receipt with a failed one
  (`operations.ts` 979-990), though a retry may have been answered with the first. A stored outcome is final if and only if no start still
  waits for its alarm (`OutcomeStandsExactly`).
- The comparisons with the re-encoded value in `buildEnvshareLink` never decide (`EncodeUndoesDecode`): what decodes is canonical. The
  empty byte sequence is encoded like a single zero byte (`EmptyEncodesLikeZero`).
- `deviceStillGranted` has a rule for permanent records without a deadline that were verified recently (`v2-session.ts` 85-92). It never applies:
  such a record has no time of verification (`NoDeadlineNoGrant`).

## Model

| member | source | states |
|---|---|---|
| ChildTheorems.CancelledBeforeStartIsFinal | apps/workflow-mcp-worker/src/child-capacity.ts:300-384 | A child stored as `cancelled_before_start` has had no native create in any run of any number of starters and cancellers, and has none in any future; no worker is about to issue one. |
| ChildTheorems.FenceNeverReopens | apps/workflow-mcp-worker/src/child-capacity.ts:348-354 | After the first dispatch claim the row is never `reserved`, `creating` or `cancelled_before_start` again. |
| ChildTheorems.OneDispatcherAtATime | apps/workflow-mcp-worker/src/child-capacity.ts:348-383 | Two workers are never both between winning the dispatch claim and having dealt with the return of `create()`. |
| ChildTheorems.CreatesSpendClaims | apps/workflow-mcp-worker/src/child-capacity.ts:348-375 | Every create names the one child id and spends a claim that no other create spends; an existing instance was created. |
| ChildTheorems.NoNewClaims | apps/workflow-mcp-worker/src/child-cancel.ts:44-50 | Once the outcome has left `queued`, or an intent is stored, no claim is ever won again, and every create of the future belongs to a claim already there. |
| ChildTheorems.IntentStopsTheRunner | apps/workflow-mcp-worker/src/child-cancel.ts:41-50 | An intent stored while the child is queued keeps it from ever being `running`. |
| ChildTheorems.TerminateOnce | apps/workflow-mcp-worker/src/child-cancel.ts:83-91 | `cancelAwaitedChild` issues `terminate()` at most once per child in all its calls together, whatever is lost, and only after the intent claimed it; the calls of `store.ts` 725 are steps of others. |
| ChildTheorems.StoredCancellationIsTrue | apps/workflow-mcp-worker/src/child-cancel.ts:69-99 | A stored `cancelled` that no other entry point wrote means: never created, or intent present, terminated once, and the instance terminated. |
| ChildTheorems.CancelAnswersAreTrue | apps/workflow-mcp-worker/src/child-cancel.ts:23-102 | Each answer holds when given and in every future: `cancelled_before_start` without a create; `already_terminal` with an unfinished outcome gone or an instance that ended by itself; `terminal_confirmed` of a row whose `start_state` is `cancelled`, or that no other entry point cancelled; not found only of a row that is not an awaited child's. |
| ChildTheorems.StartAnswersAreTrue | apps/workflow-mcp-worker/src/child-capacity.ts:254-384 | In every run and every future: a child answered `started` was created or its run is over, one answered `cancelled_before_start` is cancelled, and `child_start_not_authorized` is about a parent that runs no more or a row that is no awaited child's, with no claim from then on. |
| ChildTheorems.UnauthorizedNeverCreated | apps/workflow-mcp-worker/src/child-capacity.ts:274-278 | A row of another weight or instance id is never claimed and never created in any run; and behind the end of the parent no claim is won. |
| ChildTheorems.NativeCancelledIsTrue | apps/workflow-mcp-worker/src/child-cancel.ts:69-99 | A stored `start_state` of `cancelled` says by itself that the instance terminated, now and in every future, whoever else cancelled the run. |
| ChildTheorems.AbandonNeverFires | apps/workflow-mcp-worker/src/child-capacity.ts:360-370 | The branch for an intent that won in `creating` never changes a row: with an intent stored the row is never `creating`. |
| ChildTheorems.LostClaimAnswerExact | apps/workflow-mcp-worker/src/child-capacity.ts:308-313 | For a row read as `cancelled` after a lost claim: no claim and no create now or ever, if and only if `start_state` is `reserved`, `creating` or `cancelled_before_start` - which the code does not read. |
| ChildMisreports.StaleStarterMisreports | apps/workflow-mcp-worker/src/child-capacity.ts:309-311 | A run in which the starter answers `cancelled_before_start` for a child that was created and terminated. |
| ChildMisreports.ForeignCancelMisreported | apps/workflow-mcp-worker/src/child-cancel.ts:23-24 | A run in which `terminal_confirmed` is answered for a live instance after another entry point wrote outcome `cancelled`. |
| ChildMisreports.ConfirmedExactly | apps/workflow-mcp-worker/src/child-cancel.ts:23-24 | For each stored `start_state`: the answer `terminal_confirmed` of the first read means a terminated instance, now and for good, in every run that gives it, if and only if that `start_state` is `cancelled`. |
| ChildSafety.StepKeepsInv | apps/workflow-mcp-worker/src/child-capacity.ts:254-384 | Every statement, native call, effect and environment step keeps the invariant of row, history and workers. |
| ChildTheorems.RunIsLater | apps/workflow-mcp-worker/src/child-capacity.ts:254-384 | What any later state keeps of an earlier one: claims, creates, terminations, the fence, a terminal outcome, the intent. |
| ChildWorkers.ChildStore.StartReservedAwaitedChild | apps/workflow-mcp-worker/src/child-capacity.ts:254-384 | The function as written, each execution a run of the machine: `started` means an instance that was created or a finished run; `cancelled_before_start` a cancelled one; `indeterminate` comes ten minutes behind the creation at the earliest; not authorized means that the parent runs no more or the row is no awaited child's. |
| ChildWorkers.ChildStore.DispatchAndCreate | apps/workflow-mcp-worker/src/child-capacity.ts:348-383 | From the dispatch claim on: lost claim, abandonment, create, mark or recover, as a run of the machine. |
| ChildWorkers.ChildStore.ResumeClaimed | apps/workflow-mcp-worker/src/child-capacity.ts:315-343 | Observe first; found, unavailable, the ten-minute cutoff and the retry of an unknown start, as a run of the machine. |
| ChildWorkers.ChildStore.CancelAwaitedChild | apps/workflow-mcp-worker/src/child-cancel.ts:7-103 | The function as written; each answer tells of row and instance: `cancelled_before_start` no create and no instance, `terminal_confirmed` a terminated instance, `already_terminal` an end of run or instance, not found a row that is no awaited child's. |
| ChildWorkers.ChildStore.CancelNative | apps/workflow-mcp-worker/src/child-cancel.ts:63-102 | Status, one-shot termination and second status, as a run of the machine that ends in its answer. |
| ChildAlone.StartAlone | apps/workflow-mcp-worker/src/child-capacity.ts:254-384 | A starter that is left alone, on any row and instance that any run reaches, ends with exactly the answer, the row and the instance of a table written from the row alone. |
| ChildAlone.ClaimAlone | apps/workflow-mcp-worker/src/child-capacity.ts:300-384 | So does a starter that was overtaken by any others before its first claim. |
| ChildAlone.DispatchAlone | apps/workflow-mcp-worker/src/child-capacity.ts:348-383 | So does one that was overtaken before its dispatch claim: it creates and marks, or answers from the row that beat it. |
| ChildAlone.ResumeAlone | apps/workflow-mcp-worker/src/child-capacity.ts:315-343 | So does one that resumes a claim: found, given up behind ten minutes, undecided, or retried. |
| ChildAlone.CancelAlone | apps/workflow-mcp-worker/src/child-cancel.ts:7-103 | A canceller that is left alone ends as its table says: refused, stopped before the start, terminated with one `terminate()`, or told of an end. |
| DetachedChild.CreateAtMostOnce | apps/workflow-mcp-worker/src/child-capacity.ts:231-247 | In any run the one claim there is precedes the one create there is. |
| DetachedChild.AnswersAreTrue | apps/workflow-mcp-worker/src/child-capacity.ts:157-247 | `started` is answered only of an existing instance; `rejected` only of a child that never was and never will be created; `indeterminate` of a row that says so or was cancelled; a refusal exactly of a row that is no detached child's. |
| DetachedChild.NoClaimAfterQueued | apps/workflow-mcp-worker/src/child-capacity.ts:231-237 | No claim is won once the outcome has left `queued`. |
| DetachedWorkers.DetachedStore.StartReservedDetachedChild | apps/workflow-mcp-worker/src/child-capacity.ts:157-247 | The function as written: at most one create, `started` only with an instance, `rejected` only without any, `indeterminate` only with its row, and refused exactly for a row that is no detached child's. |
| DetachedWorkers.DetachedStore.PersistedStart | apps/workflow-mcp-worker/src/child-capacity.ts:179-193 | What a worker answers whose update changed nothing, from the row it reads. |
| DetachedAlone.StartAlone | apps/workflow-mcp-worker/src/child-capacity.ts:157-247 | A start that is left alone, on any consistent row and instance, ends with exactly the answer, the row and the instance of a table written from them. |
| DetachedAlone.LookAlone | apps/workflow-mcp-worker/src/child-capacity.ts:196-229 | So does one that looks for an instance: found, given up behind ten minutes, or unknown. |
| DetachedAlone.ClaimAlone | apps/workflow-mcp-worker/src/child-capacity.ts:231-247 | So does one that was overtaken before its claim. |
| CapacityTheorems.CapacityNeverExceeded | apps/workflow-mcp-worker/src/child-capacity.ts:27-38 | In every run of admissions, transfers, detached admissions, completions and replays at most 8 units, and at most 8 runs, are active. |
| CapacityTheorems.TransferExact | apps/workflow-mcp-worker/src/child-capacity.ts:74-97 | A transfer appends the child and takes one unit from its parent, both or neither, exactly when the parent may reserve and no row clashes. |
| CapacityTheorems.TransferConserves | apps/workflow-mcp-worker/src/child-capacity.ts:57-97 | A transfer leaves the sum of active weights as it was. |
| CapacityTheorems.OneTransferPerParent | apps/workflow-mcp-worker/src/child-capacity.ts:66-113 | After a parent has transferred, no transfer with any arguments, a replay included, ever changes the table again. |
| CapacityTheorems.ChildrenHaveTopLevelParents | apps/workflow-mcp-worker/src/child-capacity.ts:81-84 | Every child row has a stored parent that is no child itself and keeps one unit. |
| CapacityTheorems.AdmissionExact | apps/workflow-mcp-worker/src/child-capacity.ts:31-38 | An ordinary run is admitted exactly when it is published, clashes with no row and its weight still fits under 8. |
| CapacityAnswers.TransferTells | apps/workflow-mcp-worker/src/child-capacity.ts:74-97 | What the batch does, told by ids, instances, keys, steps and weights of the stored rows: the parent of two units gives one to the new child, or every row stays. |
| CapacityAnswers.DetachTells | apps/workflow-mcp-worker/src/child-capacity.ts:127-139 | What the guarded insert does, told by the stored rows and their sum of units. |
| CapacityAnswers.AdmitTells | apps/workflow-mcp-worker/src/child-capacity.ts:27-38 | What an ordinary admission does, told by the stored rows and their sum of units. |
| RunTable.Runs.ActiveUnits | apps/workflow-mcp-worker/src/child-capacity.ts:28-29 | The sum over queued and running rows. |
| RunTable.Runs.TransferBatch | apps/workflow-mcp-worker/src/child-capacity.ts:74-97 | The two statements on the table in place: the specified transfer, with the sum of units unchanged. |
| RunTable.Runs.TransferAwaitedChildCapacity | apps/workflow-mcp-worker/src/child-capacity.ts:66-113 | Granted exactly if the child is stored as asked for below a top-level parent of weight one when it is read back, as it is if it was at its batch, and if the parent runs at the later moment at which that is read; `alreadyReserved` is false exactly if its own batch inserted the child. |
| RunTable.Runs.DetachInsert | apps/workflow-mcp-worker/src/child-capacity.ts:127-139 | The guarded insert in place: one unit more exactly when it inserted. |
| RunTable.Runs.AdmitDetachedChild | apps/workflow-mcp-worker/src/child-capacity.ts:119-151 | Granted exactly if the child is stored as asked for when it is read back, as it is if it was behind the insert; `alreadyReserved` is false exactly if its own insert did that; invalid arguments are told apart. |
| IntentTheorems.TokenOncePerKey | apps/browser-mcp-worker/src/intents.ts:158-180 | Over every run with concurrent dispatches, recreations and sweeps no key gets two tokens, and no two callers hold tokens of one key. |
| IntentTheorems.OncePerKeyExactly | apps/browser-mcp-worker/src/intents.ts:108-132 | Tokens are unique per key in every run if and only if no caller acts on a `now` older than seven days less five and a half minutes. |
| IntentTheorems.SecondToken | apps/browser-mcp-worker/src/intents.ts:110-120 | The run behind the other half: an admission that waits too long re-opens a key whose receipt was swept. |
| IntentTheorems.GoneKeyStaysShut | apps/browser-mcp-worker/src/intents.ts:230-235 | A key whose receipt was deleted is refused as expired by every admission of every future. |
| IntentTheorems.ReceiptsAreTruthful | apps/browser-mcp-worker/src/intents.ts:208-229 | Expired, denied, admitted and hash-less receipts are of keys without a token; a completed one was written by `finalize` with the key's token and generation. |
| IntentTheorems.ReceiptsStay | apps/browser-mcp-worker/src/intents.ts:152-235 | Terminal receipts do not change while kept, unknown ones are never dispatched again, and a kept receipt keeps its operation and commitment. |
| IntentTheorems.OnlyOldReceiptsAreDeleted | apps/browser-mcp-worker/src/intents.ts:230-232 | A step deletes only receipts that have been terminal for seven days. |
| IntentTheorems.OneDispatchingPerEndpoint | apps/browser-mcp-worker/src/intents.ts:71-72 | At most one intent of an endpoint is dispatching. |
| IntentTheorems.RecreationIsConservative | apps/browser-mcp-worker/src/intents.ts:203-207 | A recreation leaves nothing dispatching or pending; what was dispatching is unknown and gets no token in any future. |
| IntentAnswers.RetryFindsItsReceipt | apps/browser-mcp-worker/src/intents.ts:110-131 | Once a command was accepted, and while its receipt is kept, whatever happens, any later admission of the key is answered by the state of the receipt if its command is the same and refused if it is not; neither writes anything. |
| IntentAnswers.TokenFinalizes | apps/browser-mcp-worker/src/intents.ts:208-229 | Whatever happened since the dispatch, while the receipt is kept without a final result, `finalize` with the token of the dispatch and its generation stores what it is told, and with any other token stores nothing. |
| IntentAnswers.AdmitUnseen | apps/browser-mcp-worker/src/intents.ts:116-131 | An admission of a key without a row: the window of thirty seconds ahead and five minutes behind, the limit of unknown receipts in seven days counted as a set, else the row as it is stored. |
| IntentAnswers.DispatchEnds | apps/browser-mcp-worker/src/intents.ts:165-180 | A dispatch behind its hash: stored with the hash of its token exactly if the row is admitted still and no other intent of the endpoint dispatches. |
| IntentAnswers.FinalizeEnds | apps/browser-mcp-worker/src/intents.ts:208-229 | A receipt behind its hash: written for the right token, generation and a row that still waits; refused for another; otherwise the row as it is. |
| IntentAnswers.ReconcileExact | apps/browser-mcp-worker/src/intents.ts:152-157 | Exactly the dispatches and bound admissions that are older than eight seconds are given up; every other row stays. |
| IntentAnswers.SweepExact | apps/browser-mcp-worker/src/intents.ts:230-235 | Exactly the admitted rows of more than five minutes expire, exactly the final ones of more than seven days go; every other row stays. |
| IntentSafety.StepOk | apps/browser-mcp-worker/src/intents.ts:101-235 | Every step keeps the invariant of the table, of the issued tokens and of every waiting caller. |
| IntentKeys.ParsedKeysDiffer | apps/browser-mcp-worker/src/intents.ts:16 | Different intent keys of an endpoint have different rows, although the row is looked up by timestamp and rest. |
| IntentKeys.KeyTextParses | apps/browser-mcp-worker/src/intents.ts:115 | Every 48-bit timestamp is the timestamp of some intent key (section 5.7 of RFC 9562). |
| IntentKeys.HexFirstCountsMost | apps/browser-mcp-worker/src/intents.ts:115 | The timestamp of a key is the number that its digits denote, the first counting most. |
| IntentDesk.IntentDesk.AdmitIntent | apps/browser-mcp-worker/src/intents.ts:108-132 | The method as written, with the await of its HMAC, as a run of the machine: an existing row is answered with its state only to the commitment it was admitted with, a conflict only to another; accepted means stored; invalid keys and arguments exactly. |
| IntentDesk.IntentDesk.AdmitAfterHmac | apps/browser-mcp-worker/src/intents.ts:113-131 | Of a key with a row: the state of the row exactly to its own commitment, a conflict exactly to another, and nothing changes. Of a key without one: expired or skewed by the clock, too many unknowns, or accepted and stored. |
| IntentDesk.IntentDesk.Dispatch | apps/browser-mcp-worker/src/intents.ts:158-180 | A token that is returned is that of a stored dispatching row, and no other was ever issued for its key. |
| IntentDesk.IntentDesk.Finalize | apps/browser-mcp-worker/src/intents.ts:208-229 | Stored only if the row has the result, the tab, and the hash and generation of the token that was given. |
| IntentDesk.IntentDesk.BindPrepare | apps/browser-mcp-worker/src/intents.ts:138-145 | True exactly when the row is now bound to this generation and revision at this time. |
| IntentDesk.IntentDesk.MatchesPrepare | apps/browser-mcp-worker/src/intents.ts:146-151 | True exactly for an admitted row of that operation and binding, at most eight seconds old. |
| IntentDesk.IntentDesk.AbortIntent | apps/browser-mcp-worker/src/intents.ts:181-186 | An admitted intent fails; any other is untouched; the answer is its state. |
| IntentDesk.IntentDesk.MarkIntentUnknown | apps/browser-mcp-worker/src/intents.ts:187-192 | A dispatching intent becomes unknown; any other is untouched; the answer is its state. |
| IntentDesk.IntentDesk.ReconcileTable | apps/browser-mcp-worker/src/intents.ts:152-157 | No dispatch older than eight seconds remains dispatching. |
| IntentDesk.IntentDesk.Recover | apps/browser-mcp-worker/src/intents.ts:203-207 | After it no row is dispatching or pending approval. |
| IntentDesk.IntentDesk.Sweep | apps/browser-mcp-worker/src/intents.ts:230-235 | Both statements in place give the specified table. |
| BrowserTheorems.RequestsMatchAdmission | apps/browser-mcp-worker/src/coordinator.ts:528-578 | Whenever an execute request goes out the endpoint is enabled, its generation and revision are those captured at admission, and no authorization change lies between. |
| BrowserTheorems.OneMutationAtATime | apps/browser-mcp-worker/src/coordinator.ts:329-358 | At most one mutation of an endpoint is under way in any run. |
| BrowserSockets.MutationsAreAttached | apps/browser-mcp-worker/src/coordinator.ts:329-358 | In every run a mutation under way belongs to a socket that is authenticated at the endpoint's present generation. |
| BrowserSockets.OfflineBindsNothing | apps/browser-mcp-worker/src/coordinator.ts:329-334 | In every run, while no socket is authenticated at the present generation, no step admits or binds a mutation, one admitted before included. |
| BrowserDispatch.RequestsAreUnique | apps/browser-mcp-worker/src/coordinator.ts:528-578 | Over every run of endpoint and ledger together no operation and no intent key is sent twice, and each request carries the one token that the ledger issued for its key; the ledger alone provides it. |
| BrowserDispatch.StepOk | apps/browser-mcp-worker/src/coordinator.ts:558-574 | Every step of the two machines keeps their invariants, the tokens of the requests, and the callers that wait for the ledger. |
| BrowserTheorems.RevisionCountsChanges | apps/browser-mcp-worker/src/coordinator.ts:429-449 | Every step that changes the authorization raises the revision by one. |
| BrowserTheorems.OneCommitPerAttempt | apps/browser-mcp-worker/src/coordinator.ts:277-296 | Each attempt is consumed by at most one enabling commit over all interleavings. |
| BrowserTheorems.CommitsAreCurrent | apps/browser-mcp-worker/src/coordinator.ts:269-285 | A commit on an existing endpoint finds it not revoked and at the stop epoch that the attempt read as it began. |
| BrowserTheorems.StopSupersedesAttempts | apps/browser-mcp-worker/src/coordinator.ts:429-444 | After a Stop, no attempt stored and no call under way ever enables the endpoint: only one that reads the new stop epoch. |
| BrowserTheorems.LocalStopStopsExactly | apps/browser-mcp-worker/src/coordinator.ts:429-444 | Whatever happens while it hashes, a `/local-stop` leaves the endpoint not enabled if and only if it read it enabled; one that read it stopped leaves an activation in between standing. |
| BrowserTheorems.RecreationForgetsMutations | apps/browser-mcp-worker/src/coordinator.ts:528-535 | A recreated object never executes a mutation that was admitted before, though its binding is durable. |
| BrowserAnswers.MutateBegins | apps/browser-mcp-worker/src/coordinator.ts:329-334 | Exactly when a mutation goes on to its admission, told by the row, the socket and what is under way. |
| BrowserAnswers.MutateEnds | apps/browser-mcp-worker/src/coordinator.ts:335-358 | Exactly when an admitted mutation is tracked, and as what. |
| BrowserAnswers.PrepareResultExact | apps/browser-mcp-worker/src/coordinator.ts:528-557 | Which prepare results go on to the ledger, which end the mutation, and which change nothing. |
| BrowserAnswers.ExecuteExact | apps/browser-mcp-worker/src/coordinator.ts:558-578 | Exactly when the execute request goes out behind the dispatch, and that otherwise the mutation ends. |
| BrowserAnswers.AuthenticateExact | apps/browser-mcp-worker/src/coordinator.ts:501-520 | A new socket takes the next generation and ends the mutations of the older one. |
| BrowserAnswers.CompletionEnds | apps/browser-mcp-worker/src/coordinator.ts:277-285 | The commit of an attempt behind its three awaits: enabled, only consumed, or nothing, told by row and attempt. |
| BrowserSafety.StepOk | apps/browser-mcp-worker/src/coordinator.ts:224-302 | Every step of every handler keeps the invariant of grant, bindings, requests, attempts and callers. |
| BrowserOwner.BrowserOwner.Mutate | apps/browser-mcp-worker/src/coordinator.ts:322-364 | A prepare request goes out exactly if nothing was under way on an enabled endpoint, the socket was authenticated at its generation, the ledger accepts, and behind that the grant is the same; the operation is then tracked and bound under it, and the socket is authenticated still. |
| BrowserOwner.BrowserOwner.OnPrepareResult | apps/browser-mcp-worker/src/coordinator.ts:528-578 | An execute request goes out exactly for a recent, accepted and rightly bound result that a mutation waits for on this socket, with a token, through an open socket, if endpoint, generation and revision behind the ledger are those of before it. |
| BrowserOwner.BrowserOwner.CheckPrepared | apps/browser-mcp-worker/src/coordinator.ts:528-557 | The checks in order: exactly a result that a mutation waits for, recent, accepted and of the binding of this grant, goes on to the ledger. |
| BrowserOwner.BrowserOwner.SendExecute | apps/browser-mcp-worker/src/coordinator.ts:558-574 | Sent exactly if the grant is as before the dispatch and the socket takes it, and then recorded with that grant; otherwise the mutation ends. |
| BrowserOwner.BrowserOwner.BeginActivation | apps/browser-mcp-worker/src/coordinator.ts:224-242 | An attempt is stored exactly if a known endpoint was not revoked, the credential is right and the id is free behind the hash; it carries the stop epoch of before the hash, unverified and unconsumed. |
| BrowserOwner.BrowserOwner.AuthorizeAttempt | apps/browser-mcp-worker/src/coordinator.ts:243-248 | Verifies exactly an attempt that is neither verified nor consumed. |
| BrowserOwner.BrowserOwner.AuthenticateSocket | apps/browser-mcp-worker/src/coordinator.ts:501-520 | A new generation exactly if the endpoint was enabled and, behind the hash, state, revision and generation are those of before; the mutations of older sockets end; the authorization is as it was. |
| BrowserOwner.BrowserOwner.CompleteExisting | apps/browser-mcp-worker/src/coordinator.ts:249-286 | Enabled exactly if proof, credential and alarm succeed and at each of its three reads the endpoint is not revoked, at the stop epoch of the attempt and at the same revision, and the attempt is ready at the last. |
| BrowserOwner.BrowserOwner.CommitEnable | apps/browser-mcp-worker/src/coordinator.ts:277-285 | The synchronous tail: enables exactly if the attempt is ready and the endpoint is as it was read, and consumes it; or changes neither state nor revision. |
| BrowserOwner.BrowserOwner.StopCommit | apps/browser-mcp-worker/src/coordinator.ts:429-444 | Raises the stop epoch and ends the pending mutations; stops and raises the revision exactly if the row that was read was not stopped, whatever it is now. |
| BrowserOwner.BrowserOwner.LocalStop | apps/browser-mcp-worker/src/coordinator.ts:412-444 | Answers so exactly if the credential is right and the row it read was not revoked, and for one that was enabled the alarm is set: then the Stop of that branch is its last step, and an endpoint that was enabled at the read is stopped; without the alarm it is revoked. |
| EndpointDeadlines.Owner.ReconcileRemembered | apps/browser-mcp-worker/src/coordinator.ts:122-163 | Every remembered endpoint ends online without an offline deadline or with a deadline still to come, and an alarm no later than the first, which is a date of one of them if it is new; or, exactly when there is one and the alarm fails, each that is left is revoked. |
| EndpointDeadlines.Owner.ReconcileOne | apps/browser-mcp-worker/src/coordinator.ts:125-151 | One row: expiry wins over liveness, the deadline is kept, set once, or revokes. |
| EndpointDeadlines.Owner.ScheduleEarlierAlarm | apps/browser-mcp-worker/src/coordinator.ts:118-121 | The alarm is set earlier or left, never later while it is pending. |
| EndpointDeadlines.Owner.Stop | apps/browser-mcp-worker/src/coordinator.ts:432-443 | The alarm first, then the row by its id alone: with the alarm stopped with the earliest of the three dates and an alarm no later, without it expired. |
| EndpointDeadlines.Owner.SocketClosed | apps/browser-mcp-worker/src/coordinator.ts:636-667 | The close sets an offline deadline once, counted from the last observation, with an alarm no later; exactly without an alarm the row is revoked. |
| EndpointDeadlines.Owner.RevokeAll | apps/browser-mcp-worker/src/coordinator.ts:156-161 | After it no permanent endpoint is authorized. |
| DeadlineRuns.ReconcileRowIsReconciled | apps/browser-mcp-worker/src/coordinator.ts:125-151 | The row function of the run model is what the loop does to a row. |
| DeadlineRuns.DeadlineNeverGrows | apps/browser-mcp-worker/src/coordinator.ts:122-163 | Without an activation, an authentication or a sight of the live socket the effective deadline never moves forward, across reconciliations, Stops, safe local-stops with their hashes, closes and losses. |
| DeadlineRuns.OverdueIsRevoked | apps/browser-mcp-worker/src/coordinator.ts:126-135 | The first reconciliation after the effective deadline revokes. |
| DeadlineRuns.LocalStopExact | apps/browser-mcp-worker/src/coordinator.ts:412-444 | No run during the hash, other Stops and local-stops included, lets a local-stop move the deadline forward, if and only if the row it read was safe for its time and the oldest overlapping request, and no waiting local-stop undercuts it. |
| DeadlineRuns.LocalStopLengthens | apps/browser-mcp-worker/src/coordinator.ts:412-444 | Every endpoint with a live socket shows it: the socket closes during the hash, and local-stop stores a later deadline than the close did. |
| DeadlineRuns.RevokedExactly | apps/browser-mcp-worker/src/coordinator.ts:427-444 | A revoked endpoint stays revoked in every future if and only if no local-stop that read it enabled still waits for its hash. |
| DeadlineAnswers.ReconciledExact | apps/browser-mcp-worker/src/coordinator.ts:122-151 | A row is reconciled exactly if: over its date it is revoked; online it has none; else it has the date it had, or one window behind the last sight. |
| DeadlineAnswers.StopDeadlineExact | apps/browser-mcp-worker/src/coordinator.ts:429-437 | The date of a Stop is the least of one window from now and the two dates stored. |
| DeadlineAnswers.SocketTells | apps/browser-mcp-worker/src/coordinator.ts:636-667 | What a close makes of the row: one window from the later of the two last observations, though no later than the close, and only of an enabled row without a date. |
| DeadlineAnswers.EarlierExact | apps/browser-mcp-worker/src/coordinator.ts:118-121 | An alarm is replaced exactly if none is pending, it is due, or it is later. |
| SshTheorems.DispatchesThirtyDaysApart | apps/ssh-mcp-worker/src/operations.ts:1206-1228 | Two dispatches of one operation - command, SFTP change or session start - are at least thirty days of clock apart, under every failure of storage and any restarts. |
| SshTheorems.UnknownIsFinal | apps/ssh-mcp-worker/src/operations.ts:1206-1228 | An unknown operation keeps its row for ever and is never dispatched again. |
| SshTheorems.RestartForfeits | apps/ssh-mcp-worker/src/operations.ts:719-721 | A restart makes every claim without an outcome unknown, for good. |
| SshTheorems.OutcomeIsReplayed | apps/ssh-mcp-worker/src/operations.ts:751-758 | Until its row is pruned a final outcome is what any retry is answered; a new dispatch comes only thirty days after the claim. |
| SshTheorems.OutcomeStandsExactly | apps/ssh-mcp-worker/src/operations.ts:954-995 | A stored outcome is never changed, in any future, if and only if no session start still waits for its alarm behind it: a completed receipt turns into a failed one when the alarm cannot be set. |
| SshTheorems.OutcomesFollowDispatches | apps/ssh-mcp-worker/src/operations.ts:760-786 | A stored outcome, or the state running, belongs to a dispatch at the time of the claim; what is stored says the same as the state, unless that is unknown. |
| SshTheorems.ConnectionsAreBounded | apps/ssh-mcp-worker/src/operations.ts:1217-1242 | At most 4 leases and 2 per host, and at most 4 connections, 2 per host, commands, changes, readers and live sessions together, each with a lease of its own, in every run. |
| SshTheorems.DispatchExact | apps/ssh-mcp-worker/src/operations.ts:1206-1228 | A call is dispatched exactly when no row is left after pruning, both limits have room and no lease of the operation was leaked. |
| SshAnswers.OtherCommandIsRefused | apps/ssh-mcp-worker/src/operations.ts:751-758 | An operation id belongs to the command that claimed it: while its row is kept, whatever happened since, every other command, change or start under the id is refused and dispatches nothing, and the same one is never refused so. |
| SshAnswers.ClaimOfRow | apps/ssh-mcp-worker/src/operations.ts:1206-1228 | What a call finds that finds a row: the conflict, the stored reply, unknown, or in progress, by digest and state, with nothing claimed. |
| SshAnswers.ClaimOfNone | apps/ssh-mcp-worker/src/operations.ts:1206-1228 | What a call does that finds no row: refused at four leases or two of the host, else row and lease at once. |
| SshAnswers.PrunedBatchExact | apps/ssh-mcp-worker/src/operations.ts:1209-1214 | A batch: completed or failed receipts of thirty days, fifty of them or all. |
| SshAnswers.FinishExact | apps/ssh-mcp-worker/src/operations.ts:760-786 | The end of a call for each way to store its receipt and to release its lease. |
| SshAnswers.ScheduleExact | apps/ssh-mcp-worker/src/operations.ts:970-995 | The alarm of a session: answered as stored, or the session goes and the receipt ends like a failed call. |
| SshAnswers.RestartExact | apps/ssh-mcp-worker/src/operations.ts:703-723 | A restart: admitted and running become unknown, and no lease, session or caller is left. |
| SshSafety.StepOk | apps/ssh-mcp-worker/src/operations.ts:703-995 | Every step keeps the invariant of receipts, dispatches, leases, sessions and callers, and what a later state keeps. |
| SshDesk.SshDesk.ClaimOperation | apps/ssh-mcp-worker/src/operations.ts:1206-1228 | The transaction: the row, capacity, a lease left behind, or a grant with row and lease, each exactly; nothing at all when it throws. |
| SshDesk.SshDesk.Prune | apps/ssh-mcp-worker/src/operations.ts:1209-1214 | Deletes fifty prunable receipts, or all of them. |
| SshDesk.SshDesk.ReleaseLease | apps/ssh-mcp-worker/src/operations.ts:1244-1251 | Two attempts; the lease goes, or stays after two failures. |
| SshDesk.SshDesk.ExecuteOperation | apps/ssh-mcp-worker/src/operations.ts:729-786 | The function as written, step for step for each way that storage can throw: its claim, and where that dispatches its end; a stored reply is answered only to the command whose digest the row has, a conflict only to another; every dispatch there ever was is thirty days from every other of its operation. |
| SshDesk.SshDesk.StoreReceipt | apps/ssh-mcp-worker/src/operations.ts:768-786 | The receipt is stored and answered, or, exactly when that throws, the answer is unknown; the lease is released either way. |
| SshDesk.SshDesk.PersistUncertain | apps/ssh-mcp-worker/src/operations.ts:1186-1204 | Three tries in order: the unknown outcome, the state alone, or a note in memory. |
| SshDesk.SshDesk.ChangeBySftp | apps/ssh-mcp-worker/src/operations.ts:1077-1127 | The function as written, step for step for each way that storage can throw, with a receipt that is at least uncertain; a stored reply only for the change whose digest the row has, a conflict only for another. |
| SshDesk.SshDesk.StartSession | apps/ssh-mcp-worker/src/operations.ts:926-996 | The function as written, step for step for each way that storage, opening and alarm can come out: claim, open, store, alarm; a stored reply only for the start whose digest the row has, a conflict only for another. |
| SshDesk.SshDesk.OpenSession | apps/ssh-mcp-worker/src/operations.ts:954-981 | Session and receipt at once, then the alarm; the answer is the session, or the failure exactly when the alarm is not set, or unknown when that cannot be stored. |
| SshDesk.SshDesk.AbandonSession | apps/ssh-mcp-worker/src/operations.ts:982-995 | The session is gone and the receipt overwritten as far as it can be. |
| SshDesk.SshDesk.FinishSession | apps/ssh-mcp-worker/src/operations.ts:1412-1428 | The session ends, and with two attempts its own lease goes; no receipt changes. |
| SshDesk.SshDesk.ReserveConnection | apps/ssh-mcp-worker/src/operations.ts:1230-1242 | A lease exactly when both limits have room, and the limits hold afterwards. |
| SshDesk.SshDesk.EndConnection | apps/ssh-mcp-worker/src/operations.ts:919-923 | A read-only connection gives back its own lease and nothing else. |
| SshDesk.SshDesk.Recover | apps/ssh-mcp-worker/src/operations.ts:703-723 | After it no operation is admitted or running, and no lease is left. |
| OutputRing.OutputRing.Append | apps/ssh-mcp-worker/src/operations.ts:158-174 | The ring keeps covering the last 262144 bytes of the whole history, which grows by the chunk; `evicted` exactly if bytes are gone. |
| OutputRing.OutputRing.Read | apps/ssh-mcp-worker/src/operations.ts:176-193 | Exactly the bytes of the history at the offset, as many as asked for and there; `truncated` exactly if some before or behind were left out. |
| OutputRing.OutputRing.Copy | apps/ssh-mcp-worker/src/operations.ts:180-191 | The copying loop over chunks gives one window of the history. |
| OutputRing.FollowingMissesNothing | apps/ssh-mcp-worker/src/operations.ts:998-1018 | A client that asks each time from where its last answer ended has, unless an answer began behind that, exactly the output from its first cursor to its present one. |
| OutputRing.GapExactly | apps/ssh-mcp-worker/src/operations.ts:158-193 | An answer begins behind what was asked for if and only if more than 262144 bytes were unread at some poll. |
| OutputRing.Retain | apps/ssh-mcp-worker/src/operations.ts:162-173 | The shift loop and the cut keep a contiguous cover that begins with the retained window. |
| HostPages.ListHosts | apps/ssh-mcp-worker/src/hosts.ts:257-293 | A page is the longest run of decodable hosts behind the cursor that passed the budget with its own cursor; the two errors come exactly from an undecodable row and an oversized first host. |
| HostPages.Collect | apps/ssh-mcp-worker/src/hosts.ts:272-292 | The loop: every pushed host was within limit and budget together with the cursor of the page. |
| HostPages.Select | apps/ssh-mcp-worker/src/hosts.ts:263-270 | The query: the rows behind the cursor, at most limit plus one. |
| HostPages.TraversalVisitsAll | apps/ssh-mcp-worker/src/hosts.ts:257-293 | Following the cursors of a fixed catalog to the end lists every host exactly once in id order, after no more pages than hosts, whatever the limits and budgets. |
| HostPages.LessExact | apps/ssh-mcp-worker/src/hosts.ts:263-270 | The order of the catalog: an id comes before another exactly if at the first place where they differ it has the smaller character or has ended. |
| Base58.DecodeUndoesEncode | apps/workflow-mcp-worker/src/envshare-transient.ts:4-10 | Decoding undoes encoding on every nonempty byte sequence, leading zeros included. |
| Base58.EncodeUndoesDecode | apps/workflow-mcp-worker/src/envshare-transient.ts:4-10 | Encoding undoes decoding on every nonempty string of letters: what decodes is canonical. |
| Base58.EmptyEncodesLikeZero | apps/workflow-mcp-worker/src/envshare-transient.ts:4 | The one collision: the empty sequence and a single zero byte. |
| Base58.EncodedLength | apps/workflow-mcp-worker/src/envshare-transient.ts:4 | Sixteen bytes encode to 16 to 22 letters. |
| Base58.EncodedDistinct | apps/workflow-mcp-worker/src/envshare-transient.ts:4 | Different nonempty byte sequences have different encodings. |
| Base58.EncodedDenotes | apps/workflow-mcp-worker/src/envshare-transient.ts:4 | The encoding denotes, in base 58 with the first letter counting most and by the places of the letters in the alphabet, the number that the bytes denote in base 256; its leading ones are as many as the leading zero bytes. |
| Positional.FirstDigitCountsMost | apps/workflow-mcp-worker/src/envshare-transient.ts:4 | The value of digits with one more in front, in any base. |
| Positional.RecodeRoundTrip | apps/workflow-mcp-worker/src/envshare-transient.ts:3-10 | Changing the base of digits with their leading zeros and back gives the digits again, for any two bases. |
| EnvshareKeys.B58 | apps/workflow-mcp-worker/src/envshare-transient.ts:4 | The three loops compute the encoding. |
| EnvshareKeys.Decode | apps/workflow-mcp-worker/src/envshare-transient.ts:5-10 | The loops compute the decoding, exactly for 1 to 40 letters of the alphabet. |
| EnvshareKeys.Size | apps/workflow-mcp-worker/src/envshare-action-executor.ts:11-16 | The length of what would be decoded, or -1 exactly for an empty, oversized or foreign string. |
| EnvshareKeys.BuildEnvshareLink | apps/workflow-mcp-worker/src/envshare-transient.ts:28-35 | Succeeds exactly if key and id decode to sixteen bytes, the digest agrees and the id has 16 to 32 characters: the two canonical comparisons never decide. Each of the two errors exactly; an id with a foreign letter is answered like a wrong key. |
| EnvshareKeys.LinkDeterminesParts | apps/workflow-mcp-worker/src/envshare-transient.ts:34 | A link determines the id and the key that it was built from. |
| BinaryChunk.ReadBinaryChunk | apps/ima-mcp-worker/src/stream.ts:55-105 | Exactly the range asked for, for every chunking; `hasMore` exactly if the body goes on behind it; the reader is cancelled exactly then. |
| BinaryChunk.ReadBoundedBuffer | apps/ima-mcp-worker/src/stream.ts:26-53 | The whole body, or an error exactly if it is longer than allowed. |
| BinaryChunk.PagesGather | apps/ima-mcp-worker/src/stream.ts:55-105 | A client that pages through a body with ranges of any sizes gets one range of it. |
| BinaryChunk.PagingSpellsBody | apps/ima-mcp-worker/src/stream.ts:55-105 | Paging from the start to the answer without `hasMore` gives the whole body. |
| GrantTheorems.NoncesAreConsumedOnce | apps/remote-control-mcp-worker/src/v2-session.ts:279-296 | No nonce is consumed twice in any run. |
| GrantTheorems.NoncesExpire | apps/remote-control-mcp-worker/src/v2-session.ts:271-297 | In every run every consumption of a nonce comes less than a minute behind its issue for the same device. |
| GrantTheorems.EpochsComeWithProofs | apps/remote-control-mcp-worker/src/v2-session.ts:279-296 | An epoch appears only in the step that consumes the matching, unexpired nonce of the same device. |
| GrantTheorems.SupersededForGood | apps/remote-control-mcp-worker/src/v2-session.ts:395-462 | An epoch that is no longer current never is again, and no transaction of its socket writes anything any more. |
| GrantTheorems.WhatSupersedes | apps/remote-control-mcp-worker/src/v2-owner-intent.ts:61-79 | A later proof, an effective stop or resume, and a revocation each end the current epoch. |
| GrantTheorems.OlderSocketsAreInert | apps/remote-control-mcp-worker/src/v2-session.ts:111-135 | Probe, device info and close of a socket whose epoch is not current change nothing. |
| GrantTheorems.GrantsAreBounded | apps/remote-control-mcp-worker/src/v2-pairing.ts:232-263 | In every run at most 64 records, with different public keys and different session attempts. |
| GrantTheorems.LapsedNeverReturns | apps/remote-control-mcp-worker/src/v2-session.ts:85-109 | A grant with a deadline that has lapsed is never live again. |
| GrantTheorems.NoDeadlineNoGrant | apps/remote-control-mcp-worker/src/v2-session.ts:85-92 | A permanent record without a deadline is not granted; the lease of sixteen minutes never applies. |
| GrantTheorems.ApprovalExact | apps/remote-control-mcp-worker/src/v2-pairing.ts:246-259 | A device is admitted exactly when fewer than 64 stored grants are live and none of the live ones has its key. |
| GrantTheorems.OneEffectPerGeneration | apps/remote-control-mcp-worker/src/v2-owner-intent.ts:52-80 | No generation of a device carries two effective stops or resumes. |
| GrantTheorems.DeadlineNeverGrows | apps/remote-control-mcp-worker/src/v2-owner-intent.ts:61-79 | Over any run without a proof, probe or verified close of its own socket, stops and resumes included, a device's deadline never moves back. |
| GrantTheorems.RevokedAttemptStaysOut | apps/remote-control-mcp-worker/src/session-device-registration.ts:66-70 | After a session device is revoked, no device of its attempt is stored before the attempt's own end. |
| GrantAnswers.LivesUntilDate | apps/remote-control-mcp-worker/src/v2-session.ts:43-92 | A permanent record with a stored date is live exactly before it. |
| GrantAnswers.LivesOtherwise | apps/remote-control-mcp-worker/src/v2-session.ts:93-103 | A temporary record is live exactly before the end of the twenty-four hours behind its approval, a session exactly before its own end if it names run, attempt and workflow; nothing else is live. |
| GrantAnswers.LivesFromContact | apps/remote-control-mcp-worker/src/v2-session.ts:43-92 | A permanent record without a date is live for its window of one to ninety days behind its last verified contact, which is not in the future. |
| GrantAnswers.ApprovalLives | apps/remote-control-mcp-worker/src/v2-pairing.ts:232-263 | From its approval a temporary device is live for twenty-four hours, a permanent one for its window, and not longer. |
| GrantAnswers.AuthorizedExactly | apps/remote-control-mcp-worker/src/v2-session.ts:106-109 | A device is authorized exactly if its grant is live and it is neither stopped nor waiting to resume. |
| GrantAnswers.ConsumeExact | apps/remote-control-mcp-worker/src/v2-session.ts:279-297 | Exactly when a proof is accepted, told by nonce, clock and record, and what is different then. |
| GrantAnswers.ProbeExact | apps/remote-control-mcp-worker/src/v2-session.ts:451-463 | Exactly when a probe is accepted, and what it renews. |
| GrantAnswers.CloseExact | apps/remote-control-mcp-worker/src/v2-session.ts:111-135 | Exactly when a close dates a record, and with what. |
| GrantAnswers.StopExact | apps/remote-control-mcp-worker/src/v2-owner-intent.ts:44-80 | What a stop does: epoch and nonce gone, and the date of the device the earlier of its own and one window from now. |
| GrantAnswers.ResumeExact | apps/remote-control-mcp-worker/src/v2-owner-intent.ts:44-80 | What a resume does: of a stopped device the epoch goes, it waits for its next proof, and its date stays; of any other only the challenge goes. |
| GrantAnswers.SweepExact | apps/remote-control-mcp-worker/src/v2-session.ts:139-171 | What a sweep leaves of the page, of what it did not see, of nonces, epochs and fences. |
| GrantAnswers.EnrollExact | apps/remote-control-mcp-worker/src/session-device-registration.ts:59-91 | When an enrollment adds a session record, and which. |
| GrantAnswers.ApproveExact | apps/remote-control-mcp-worker/src/v2-pairing.ts:246-259 | When an approval adds a record, and which. |
| GrantSafety.StepOk | apps/remote-control-mcp-worker/src/v2-session.ts:43-171 | Every transaction keeps the invariant of records, keys, attempts, fences, nonces, epochs and effects. |
| OwnerStore.OwnerStore.ListLiveGrants | apps/remote-control-mcp-worker/src/v2-session.ts:139-171 | The sweep over one page in place: what is left, what is migrated, and which nonces, epochs and fences go. |
| OwnerStore.OwnerStore.ApprovePendingKey | apps/remote-control-mcp-worker/src/v2-pairing.ts:246-259 | The sweep, room and key as judged by it, and exactly then a new record as specified, the only one with its key, among at most 64. |
| OwnerStore.OwnerStore.EnrollSession | apps/remote-control-mcp-worker/src/session-device-registration.ts:50-101 | Answered as the transaction answers, exactly with possession, an end still to come, the workflow's word behind it and no fence at the end, else denied; an answered id is a record of this key, attempt and end, stored while the attempt was not fenced. |
| OwnerStore.OwnerStore.EnrollTransaction | apps/remote-control-mcp-worker/src/session-device-registration.ts:59-91 | Each answer exactly, in the order of the tests on the swept records: capacity, fence, earlier enrollment or conflict, capacity, key, end; an answered record is the only one of its key and of its attempt, and a new id is new. |
| OwnerStore.OwnerStore.IssueSessionChallenge | apps/remote-control-mcp-worker/src/v2-session.ts:209-237 | By id or by public key: a nonce is handed out exactly for a record that resumes or is authorized, a session by the workflow's word too; it is stored for a minute and was never consumed. |
| OwnerStore.OwnerStore.ConsumeTransaction | apps/remote-control-mcp-worker/src/v2-session.ts:280-297 | The transaction succeeds exactly for an unexpired nonce of a record that may prove: then it is gone, its consumption is recorded, and for a socket the new epoch is current; or nothing at all. |
| OwnerStore.OwnerStore.DeviceInfo | apps/remote-control-mcp-worker/src/v2-session.ts:376-413 | Stored exactly for an authorized device, a session only with the workflow's word, and the current epoch. |
| OwnerStore.OwnerStore.IssueOwnerChallenge | apps/remote-control-mcp-worker/src/v2-owner-intent.ts:16-29 | Exactly for a permanent grant that is live, below the last generation, and stopped if it is to resume: a stored challenge for this intent and the generation that was read, for one minute. |
| OwnerStore.OwnerStore.ConsumeProof | apps/remote-control-mcp-worker/src/v2-session.ts:271-301 | Accepted exactly if record and nonce as read, the time behind the verification, the records of the transaction and the record at the end each allow it, with the workflow's word before and behind for a session; then a consumption is recorded less than a minute behind the issue of the nonce. |
| OwnerStore.OwnerStore.Probe | apps/remote-control-mcp-worker/src/v2-session.ts:418-470 | The rate gate exactly, recorded before the transaction; answered exactly for an authorized device at the current epoch, and a permanent device then counts from the time before the transaction. |
| OwnerStore.OwnerStore.RefreshGrant | apps/remote-control-mcp-worker/src/v2-session.ts:451-463 | The transaction: exactly for an authorized device at the current epoch, a session only with the workflow's word, and only then the idle window starts anew. |
| OwnerStore.OwnerStore.SocketClosed | apps/remote-control-mcp-worker/src/v2-session.ts:111-135 | A close of a socket that is not the current one changes no record. |
| OwnerStore.OwnerStore.RevokeDevice | apps/remote-control-mcp-worker/src/v2-pairing.ts:514-534 | The record goes with nonce and epoch, and is reported revoked exactly if it was in force. |
| OwnerStore.OwnerStore.CommitOwnerIntent | apps/remote-control-mcp-worker/src/v2-owner-intent.ts:44-80 | Effective exactly once for its generation, ends the epoch, and leaves no later deadline. |
| PairingRequests.PairingsAreBounded | apps/remote-control-mcp-worker/src/v2-pairing.ts:107-142 | In every run at most 24 pairings are pending, at most one of a key, and none is approved twice. |
| PairingRequests.ReplacedPairingIsDead | apps/remote-control-mcp-worker/src/v2-pairing.ts:130-139 | Once a key registers again its older pairing is never approved, in any future. |
| PairingAnswers.RegisterTells | apps/remote-control-mcp-worker/src/v2-pairing.ts:107-142 | What a registration is answered and which rows it leaves, told by the rows that it finds. |
| PairingAnswers.ApproveTells | apps/remote-control-mcp-worker/src/v2-pairing.ts:220-263 | Which row an approval finds, what it is answered, and that it goes exactly if approved. |
| PairingRequests.PairingDesk.RegisterPending | apps/remote-control-mcp-worker/src/v2-pairing.ts:124-141 | The part behind the sweep, in place: the answer, the new state, and the only row of the key. |
| PairingRequests.PairingDesk.DropStale | apps/remote-control-mcp-worker/src/v2-pairing.ts:129-137 | The loop: what is left are the unexpired rows of other keys, and it counts them. |
| PairedApproval.ApprovePairing | apps/remote-control-mcp-worker/src/v2-pairing.ts:220-263 | One transaction over grants and pairings: the matching row of the right kind and protocol, the sweep, and then record and deletion at once or neither, as a step of the two machines. |
| PairedApproval.RegisterPairing | apps/remote-control-mcp-worker/src/v2-pairing.ts:107-142 | One transaction: the sweep judges room and key, and the pending row is stored or not, as a step of the two machines. |
| PairedApproval.OneDevicePerPairing | apps/remote-control-mcp-worker/src/v2-pairing.ts:232-263 | Over every run of pairings and grants: each approval made a device of its own, with the key and the kind of a pairing approved once, and every grant that is not a session's was made so. |
| PairedApproval.StepOk | apps/remote-control-mcp-worker/src/v2-pairing.ts:107-263 | Every step keeps both invariants and the pairing of approvals with records. |
## Left out

- Cryptography is abstract: a digest is an injection, signatures and credential comparisons come out either way, and random ids, tokens,
  nonces and epochs are drawn from a supply that does not repeat.
- Network, engine and storage calls are nondeterministic results; the schema files are not part of this model. Assumed are one row per run id
  and per parent and step, one cancellation row per child, and that the runner changes nothing but the outcome of an instance that exists.
- The clock of each machine never runs backwards. One transaction of the remote-control owner sees one time, and `scheduleEarlierAlarm` is
  one step: the storage gates of a Durable Object let no other event in between its two storage calls.
- The validity of a command's URL and arguments is a flag of the call; result codes, presentation warnings and exposed hints of receipts
  are not modelled, and intents waiting for approval come only from an initial table.
- BrowserTheorems.OneCommitPerAttempt: an attempt is a row of the table; an id that is used again after its row was deleted is another attempt.
- BrowserTheorems.CommitsAreCurrent: does not model leases, pairing modes and the limit of 100 endpoints; a lease that ran out is a check that fails.
- DeadlineRuns.DeadlineNeverGrows: does not model temporary pairings, nor permanent rows without any date, which only a migration gives one.
  An alarm that cannot be set is the event followed by `Revoke`; a local-stop in these runs is one that `LocalStopExact` calls safe,
  and it does not end on a revoked endpoint (`RevokedExactly`).
- BrowserDispatch.RequestsAreUnique: `busy`, the age of a binding and the form of a result are nondeterministic arguments, so there are more runs
  than the source has, and what is proved holds of all of them; `execute_result` and the state of a receipt after it belong to the ledger alone.
- Input and stop of a live session, which claim a receipt without a lease. The deadlines of a session: it may end at any time. A session's shell
  opens, and its alarm is set, within thirty days of the claim. A lease whose release fails twice stays, or goes at any time when nobody holds it.
- GrantTheorems.LapsedNeverReturns: does not model legacy records without a deadline as lapsed, because their migration makes them live.
- GrantTheorems.NoncesAreConsumedOnce: does not model rate budgets and device names; the workflow's word on a session device is a parameter.
- Exclusion of an older socket at the moment it attaches: a check is awaited between the read of the epoch and the accept. The transactions carry the promise.
- Decoding of session output to text, and byte-level encoding of hosts and keys: the ring, the pages and the codec are on bytes, values and letters.
- Host records are decrypted and projected outside the model: a row carries its host or the failure.
- User interface, installation, tool registration, and address, schedule and provider look-ups.

# External task worker: a verified model

The worker fetches external tasks from Camunda, turns a command to a group of devices into one sub-task
per device and service, sends them, collects the answers, and completes the task. This project models its
four parts with the most state and proves what they promise, over whole runs where the promise is about runs.

**Device-group scheduler** (`lib/devicegroups`, driven by `lib/worker.go`). `Messages`, `SubTasks` and
`Storage` are the data: sub-task ids and families, and the flat key/value store with its four key families.
`Scheduling` says what one `ProcessCommand` or `ProcessResponse` does to the store; `DeviceGroups` is the
object with the Go loops, proved to take exactly those steps. `Steps` proves what one step keeps, `Runs`,
`Lives`, `Fairness`, `Termination`, `ParallelRounds` and `NoEmptyCompletion` what holds in every run, and
`SecondLife` constructs a run that one of them is about. `CommandTargets` says which services a command reaches and
what its sub-tasks are, `Decisions` when a call is ignored, fails, gives up or sends, and what it sends, in terms of
the run before it.
`Worker` is the object above it, with the mutual recursion between commands and responses; it carries the
run of the scheduler with it, so every theorem about runs is one about every use of the worker.

**Keyed lock and once-only completion** (`lib/camunda`). `TopicMutex` is a transition system of any number
of threads in which every operation on a Go mutex is a step of its own; `Completion` puts the
check, complete and remember section of `CompleteTask` on top of it, and `CompletionOutcome` says what a call
has done when it is over.

**Last-value query** (`lib/event.go`, `lib/timescale`). `Timescale` groups requests and un-groups answers,
`Nested` and `NestedObject` build nested maps, `LastValue` joins both into one round trip.

**Nested update and shards.** `Payload` is `setVarOnPath` on values with its laws, `SetPayload` the loop of
`setPayloadParameter` over a Go map, with the input it leaves and the error it returns; `Orders` is what any such
loop keeps. `PayloadObject` is the same on the containers changed in place, proved equal to the first two.
`Shards` is the assignment of users to shards.

## How the world is modelled

- `ProcessCommand` and `ProcessResponse` are atomic, with one clock value a call; the clock does not run
  backwards. A call may see a different repository and different messages than the one before.
- The store keeps what it is given: no expiry, no failure, JSON storage is the identity.
- Go's zero time is None: the duration since then exceeds every timeout.
- Task ids hold no underscore; the naming of sub-tasks relies on it.
- Where the order of a Go map or the ties of `sort.Slice` decide, the model leaves the choice open.
- Floats are reals; parsing, printing and truncating them, `AspectMatchLevel`, and the fetching of tokens
  and messages are parameters.
- What the worker asks of its surroundings (clock, repository, tokens, event values, how a task reads as a command,
  whether a completion succeeds) comes from `Worker.World`, one answer per question.

## What was found

- `setPayloadParameter` returns the error of the last parameter its Go map yields, and that error decides whether
  the task is run: with one parameter that can be set and one that cannot, the same task is executed or refused
  as an invalid one (`SetPayload.OrderDecidesError`). Neither input nor error depends on the order exactly if no two
  parameters clash and, coming last, all of them fail or none does (`SetPayload.OrderIrrelevantIff`). In the worker
  a task may therefore be read differently each time.
- Updates at two paths of which neither is the beginning of the other clash if they spell one list index in two
  ways, "a.1" and "a.01" (`SetPayload.SpellingsClash`).
- A parameter without a name that cannot be set still replaces the whole input
  (`SetPayload.UnnamedFailureReplaces`), unless what it leaves is the input again (`Payload.FailureChangesNothing`).
- The guards of `castQueryResponse` (lib/timescale/timescale.go:152,161) compare with the length plus one, so they let
  the length and the length plus one through as indexes. Un-grouping succeeds exactly if the response fits the query
  (`Timescale.SucceedsIffFits`).
- `castQueryResponse` never sets a time, so with `HandleMissingLastValueTimeAsError` a last-value query fails if and
  only if it requests anything (`LastValue.UntimedIsMissing`).
- Of a column that is the beginning of another one, or of that other one, the answer is lost, unless the first
  answer is a map that holds the second (`LastValue.AnswersKeptIffCompatible`).
- Two tenants' tasks can share a completion key (`Completion.KeysCanCollide`), and then one is answered from the cache
  though only the other was ever completed (`Completion.OtherTenantAnswers`); a task is safe from that in every run
  exactly if neither its id nor its tenant's holds a '+' (`Completion.RememberedIsOwnIff`).
- Try counts survive `clearTaskData`: fetching a task again does not give its sub-tasks new tries. The first life of
  ROUND_ROBIN is always fair (`Fairness.FirstLifeIsFair`), a second one can start unfair
  (`SecondLife.SecondLifeCanBeUnfair`); it is fair throughout exactly if it is once its family is stored
  (`Fairness.LifeIsFairIff`), and when that is so is said by `Fairness.CreationIsFairIff`.
- A late response leaves a result that counts as an answer once the family is stored again; only the call that
  stores the family still treats every child as open (`Steps.Candidates`). A finished response carries such a
  result exactly for the children no response has come for since (`Runs.StaleIffUnanswered`).
- PARALLEL completes a task with nothing on the first delivery of a task without a sub-task, and in no other
  case (`NoEmptyCompletion.ParallelRunEmptyCompletion`); a group without devices is one
  (`NoEmptyCompletion.EmptyGroupCompletes`).

## Model

| member | source | states |
|---|---|---|
| `Worker.CmdWorker.ExecuteTask` | lib/worker.go:202-226 | A user-triggered incident or an unreadable command is reported as exactly one failure and never reaches the scheduler. Otherwise the next step of the run is the command of the task, under the given caller, and then follows all it leads to: its conclusion, its messages, the responses to them and the calls these start, down to the end of the chain, which there is. |
| `Worker.CmdWorker.ExecuteCommand` | lib/worker.go:228-305 | The next step of the run is the effective command (retries -1 under the optimistic strategy). Then Camunda is told its conclusion: the failure, or the completion if it completed or the strategy is optimistic. After a failure, a pessimistic completion or an optimistic one Camunda refused nothing else happens; otherwise exactly its messages go out. The run stays a legal run and the chain of calls ends, measured by the children without an answer. |
| `Worker.CmdWorker.HandleTaskResponse` | lib/worker.go:391-429 | The response is the next step of the run. One for an unknown sub-task or, under PARALLEL, one whose family has another child without a result does nothing else. One that leaves no child of the family without a result completes the parent exactly once, with the last response of each child in child order, read as the version of the stored command asks. Under SEQUENTIAL and ROUND_ROBIN any other is followed by the call for the stored parent, as a response, with all it leads to, or by its one failure. The recursion ends. |
| `Worker.CmdWorker.SendMessages` | lib/worker.go:266-304 | Every request and every event with a token goes out, in order, and no other message; an answer that comes at once is a response, with all it leads to, before the next message. Under PARALLEL that is the whole change of run and effects; under SEQUENTIAL and ROUND_ROBIN the one message has its try recorded, and its answer leaves less work. |
| `Worker.CmdWorker.Conclude` | lib/worker.go:232-259 | Exactly what Camunda is told before any message, for every outcome and both strategies, and whether messages are sent: after no error, if the call has not completed, or optimistically if Camunda took the completion. |
| `Worker.CmdWorker.ConclusionIs` | lib/worker.go:232-259 | The conclusion in full: the retries first, then one failure, or one completion of the task with the results as the command's version reads them, or nothing. |
| `Worker.CmdWorker.EffectiveIs` | lib/worker.go:229-231 | The optimistic strategy sets the retries of a command to -1 and changes nothing else of it; the pessimistic one changes nothing. |
| `Worker.CmdWorker.DeliveriesAre` | lib/worker.go:266-304 | Exactly these messages go out: every request, without an answer; and an event if there is an event store and a token for it, with the answer to its own question. |
| `Worker.CmdWorker.DeliveriesInOrder` | lib/worker.go:266-304 | Every message that goes out does so exactly once, in the place given by how many before it go out. |
| `WorkerSpec.DeliverSends` | lib/worker.go:266-304 | Under PARALLEL each delivery sends its sub-task's message exactly once, whatever the answers lead to. |
| `WorkerSpec.DeliverCompletes` | lib/worker.go:391-429 | And what is completed on the way is exactly the tasks whose families an answer finishes, with their results as the version reads them. |
| `Worker.OptimisticNeverGivesUp` | lib/worker.go:229-231 | Under the optimistic strategy a call of SEQUENTIAL or ROUND_ROBIN gives up a task only if it has no open sub-task, however often they were sent. |
| `Worker.CmdWorker.Finish` | lib/worker.go:232-305 | Conclusion and messages together, as one statement about the effects and the run. |
| `Worker.CmdWorker.Call` | lib/worker.go:228-236 | Under SEQUENTIAL and ROUND_ROBIN a call yields at most one message, with its try already in the run, a completion without error has a result, and an answer to the message leaves strictly less work than before the call. |
| `Worker.SentBound` | lib/worker.go:266-304 | With R retries the worker sends at most R+1 messages for a sub-task, whatever deliveries, responses and event values it gets. |
| `WorkerSpec.VersionedCarries` | lib/worker.go:435-441 | The result variable is empty only if there is no result, it never holds anything but first results, and from version 2 on it carries all of them. |
| `WorkerSpec.VersionedIs` | lib/worker.go:435-441 | Before version 2 the variable is the first result alone, if there is one; in every other case it is the list of all results. |
| `WorkerSpec.DispatchShrinks` | lib/worker.go:265-304 | The answer to a dispatched sub-task leaves strictly fewer unanswered children than the call had: the family it belongs to is the one found or stored by the call and is never stored again by the chain. |
| `WorkerSpec.PendingWork` | lib/worker.go:423-426 | The parent that a pending response hands to `ExecuteTask` is the stored parent of the family, still known, with as much work left as the response. |
| `DeviceGroupsObject.DeviceGroups.ProcessCommand` | lib/devicegroups/devicegroups.go:98-173 | The method changes the store and answers exactly as the step relation `Scheduling.Process` allows, for all schedulers, callers and failures. |
| `DeviceGroupsObject.DeviceGroups.ProcessOneByOne` | lib/devicegroups/devicegroups.go:112-154 | The branches of SEQUENTIAL and ROUND_ROBIN: give up and clear when no try is left, wait when all are running, else take one and record its try; ROUND_ROBIN takes any of the least tried. |
| `DeviceGroupsObject.DeviceGroups.ProcessResponse` | lib/devicegroups/devicegroups.go:86-96 | The method changes the store and answers exactly as `Scheduling.Respond`: the value is stored first, also for unknown sub-tasks. When that finishes a task is `Runs.FinishesIffAllAnswered`. |
| `DeviceGroupsObject.DeviceGroups.GetOpenSubTasks` | lib/devicegroups/devicegroups.go:175-206 | A known family yields its children without a result; an unknown one is stored under the id of the parent and of every child, and all its children are open. |
| `DeviceGroupsObject.DeviceGroups.GetTaskResults` | lib/devicegroups/devicegroups.go:230-250 | Results and missing children, each in child order. |
| `DeviceGroupsObject.DeviceGroups.ClearTaskData` | lib/devicegroups/devicegroups.go:421-437 | Removes meta, result and lastcall of the parent and every child, and no try count. |
| `DeviceGroupsObject.DeviceGroups.StoreFamily` | lib/devicegroups/devicegroups.go:184-205 | Afterwards every member of the family, and no other id, has the new metadata. |
| `DeviceGroupsObject.DeviceGroups.ShouldIgnoreTask` | lib/devicegroups/devicegroups.go:446-467 | PARALLEL ignores calls that come from a response; the others ignore Camunda while the last call came from a response less than the timeout ago. |
| `DeviceGroupsObject.DeviceGroups.KeepInBudget` | lib/devicegroups/sequential.go:42-49 | Keeps, in order, the requests with tries left. |
| `DeviceGroupsObject.DeviceGroups.DropCurrentlyRunning` | lib/devicegroups/sequential.go:64-71 | Keeps, in order, the requests last tried more than the timeout ago or never. |
| `DeviceGroupsObject.DeviceGroups.AnnotateSubTaskStates` | lib/devicegroups/sequential.go:29-40 | Every request gets the stored state of its sub-task, a new one if there is none. |
| `DeviceGroupsObject.DeviceGroups.MakeRequests` | lib/devicegroups/devicegroups.go:207-218 | One message per sub-task in order, or the first error. |
| `Storage.KeysAreDistinct` | lib/devicegroups/storage.go:26-29 | Keys of the four families never coincide, and within a family a key belongs to one id. |
| `Storage.KeyValueStore.SetSubTaskState` | lib/devicegroups/storage.go:104-107 | Writing one key of the flat store changes one entry of one family and nothing of the others. |
| `Storage.KeyValueStore.DeleteTaskData` | lib/devicegroups/devicegroups.go:431-436 | Deletes three of the four families' entries of one id, the try count stays. |
| `SubTasks.SubTaskIdIsInjective` | lib/devicegroups/devicegroups.go:350-367 | Sub-task ids agree only for the same task, device index and service index. |
| `SubTasks.SubTaskIds` | lib/devicegroups/devicegroups.go:271-370 | The children of a family have pairwise different ids, all owned by the task, so families of different tasks are disjoint. |
| `SubTasks.GroupSubTasksAreThePairs` | lib/devicegroups/devicegroups.go:337-369 | Sub-task `task_i_j` exists exactly for the j-th service of the i-th device and names both; the whole call fails exactly if one device cannot be read. |
| `SubTasks.FilteredIsUnique` | lib/devicegroups/devicegroups.go:372-393 | Any strictly id-sorted list of the matching services is the one list `getFilteredServices` yields, so ids do not depend on the order of the Go map. |
| `SubTasks.FilteredHolds` | lib/devicegroups/devicegroups.go:372-393 | The list is strictly sorted by id and holds exactly the services that match the command, the last one of an id. |
| `SubTasks.GetFilteredServices` | lib/devicegroups/devicegroups.go:372-393 | Index, list in any order and sort give that unique list. |
| `SubTasks.GetGroupSubTasks` | lib/devicegroups/devicegroups.go:322-370 | The nested loops give the sub-tasks device by device and service by service, or the first error of the repository. |
| `SubTasks.GetSubTasks` | lib/devicegroups/devicegroups.go:252-282 | The method gives exactly `SubTasks.SubTasksOf`, with modifier parameters cut from device ids. What that is, and when it fails, is said by the rows of `CommandTargets`. |
| `CommandTargets.PlainSubTask` | lib/devicegroups/devicegroups.go:278-281 | A command without a group, for a service or without a device, is its own only sub-task: one element with the task itself, the same version, function, aspects, service and retries, and the part of the device id before the first '$'. It never fails. |
| `CommandTargets.TargetsAreThePairs` | lib/devicegroups/devicegroups.go:252-370 | The sub-tasks of any other command are exactly the pairs of one of its devices and a service the command reaches on it: the id is `task_i_j`, the command names the i-th device, without modifiers, and the j-th service, and nothing else of task and command changes. |
| `CommandTargets.FailsIff` | lib/devicegroups/devicegroups.go:252-347 | Finding the sub-tasks fails if and only if the command is not plain and there is no token for the tenant, or the group is unknown, or a device or its type cannot be read. |
| `CommandTargets.FilteredIffReached` | lib/devicegroups/devicegroups.go:372-393 | The filtered services are sorted by id, and hold exactly the last reached service of every id. |
| `CommandTargets.MatchesIff` | lib/devicegroups/devicegroups.go:372-418 | A service matches if and only if one of its outputs, for a measuring function, or of its inputs, for any other, has a chain of sub-variables down to one with the function of the command and matching aspects; with the event filter no event service matches a measuring function. |
| `Steps.ClearKeepsAgreement` | lib/devicegroups/devicegroups.go:421-437 | Clearing removes the metadata of exactly one family, keeps the agreement of all others and touches no key of another task. |
| `Steps.ClearedIs` | lib/devicegroups/devicegroups.go:421-437 | Entry by entry: the parent and the children of the family lose metadata, result and last call, all others keep theirs, and nobody loses a try count. |
| `Steps.PutKeepsAgreement` | lib/devicegroups/devicegroups.go:184-205 | A family stored for a task without metadata overwrites no metadata of any other family. |
| `Steps.ProcessEffect` | lib/devicegroups/devicegroups.go:98-173 | A command keeps family agreement, touches no other task, never invents or changes a result, and leaves a family it finds and keeps as it was; after a completed call the family is gone. |
| `Steps.RespondEffect` | lib/devicegroups/devicegroups.go:86-96 | A response keeps agreement, stores no family, changes no try count, and names the stored parent of the family it finishes and clears. |
| `Steps.ReadyRequests` | lib/devicegroups/sequential.go:29-71 | The requests left by annotating and filtering are, in order, those of the opened sub-tasks with tries left, and of these the ones not running, with their stored states. |
| `Steps.OneByOneTakes` | lib/devicegroups/devicegroups.go:112-154 | SEQUENTIAL takes the first ready sub-task, ROUND_ROBIN a least tried one; exactly that sub-task's count rises by one. |
| `Steps.CalledDispatches` | lib/devicegroups/devicegroups.go:98-154 | At most one message a call, for a child without a result or of the new family, within budget and not running; no other state changes, and none changes without a message. |
| `Runs.AgreementHolds` | lib/devicegroups/devicegroups.go:175-206 | In every run: metadata found under any id is one family, stored alike under its parent and every child. |
| `Runs.FinishesIffAllAnswered` | lib/devicegroups/devicegroups.go:86-96 | In every run a response is for an unknown task if and only if it has no metadata. Else it finishes its task if and only if every child of the stored family is the one it answers or has a result, and then there is one result a child and the family is cleared; otherwise it is pending, with the stored parent. |
| `Decisions.IgnoredIffAnswering` | lib/devicegroups/devicegroups.go:446-467 | In every run of SEQUENTIAL and ROUND_ROBIN a call is ignored if and only if it comes from Camunda and the last call for the task that was not came from a response less than the timeout ago; ignored it changes and reports nothing. |
| `Decisions.FailsIffCannotCall` | lib/devicegroups/devicegroups.go:107-154 | Any other call reports an error without completing exactly if its sub-tasks cannot be found or the message of an open one cannot be made, and then sends nothing. |
| `Decisions.GivesUpIff` | lib/devicegroups/devicegroups.go:112-125 | Else it completes its task if and only if every open sub-task was sent more often in this run than the command has retries, retries of -1 being endless. |
| `Decisions.SendsIff` | lib/devicegroups/devicegroups.go:112-154 | Else it sends a message, and then one for an open sub-task, if and only if some open sub-task has a try left and was not sent within the timeout. |
| `Decisions.SendsWhich` | lib/devicegroups/devicegroups.go:112-154 | SEQUENTIAL sends the first open sub-task that may go, ROUND_ROBIN one that was sent least often in this run among those that may. |
| `Decisions.OpensInOrder` | lib/devicegroups/devicegroups.go:175-206 | Open are the children of a stored family without a result, in the order of the family, or the sub-tasks of the command if the task is unknown. |
| `Decisions.NewFamilyIs` | lib/devicegroups/devicegroups.go:184-205 | A call for an unknown task stores the command and the task it was called with, and the sub-tasks of that command. |
| `Decisions.PlainCommandIsSent` | lib/devicegroups/devicegroups.go:98-154 | The first delivery of a plain command under SEQUENTIAL or ROUND_ROBIN, if its message can be made, completes nothing, fails nothing, and sends exactly one message, for the task itself. |
| `Decisions.MessagesAreMade` | lib/devicegroups/devicegroups.go:207-218 | Every message that is sent is the one made for its sub-task. |
| `Decisions.ParallelFailsIff` | lib/devicegroups/devicegroups.go:98-169 | PARALLEL ignores exactly the calls that come from a response, and fails exactly if its sub-tasks cannot be found or the message of an open one cannot be made. |
| `Runs.TriesAreDispatches` | lib/devicegroups/sequential.go:51-62 | In every run the stored try count is the number of messages so far for the sub-task, across clearing and re-fetching, and the last try is not before any of them. |
| `Runs.DispatchBound` | lib/devicegroups/sequential.go:42-49 | With at most R retries per call, -1 excepted, a sub-task gets at most R+1 messages in a whole run (none if R is negative). |
| `Runs.DispatchSpacing` | lib/devicegroups/sequential.go:64-71 | Two messages for one sub-task are more than the running timeout apart. |
| `Runs.SingleFinish` | lib/devicegroups/devicegroups.go:86-96 | Between two finished responses for a task some command has stored its family anew. |
| `Runs.ResultsAreResponses` | lib/devicegroups/devicegroups.go:86-90 | Every stored result is the value of the last response for its id and never marked as failed. |
| `Runs.ResultsAreConserved` | lib/devicegroups/devicegroups.go:230-250 | In every reachable state the children of a family split into answered and missing ones, and the result list is the last response of each answered child, in child order. |
| `Runs.FinishedCarriesEveryChild` | lib/devicegroups/devicegroups.go:221-228 | A finished response carries exactly the last response of every child, in child order. |
| `Runs.StaleIffUnanswered` | lib/devicegroups/devicegroups.go:86-96 | A finished response carries for a child the last response since its family was stored, and a result from before exactly if there was none since. |
| `Lives.LifeStep` | lib/devicegroups/devicegroups.go:175-206 | While a family lives, its parent and children stay the same and no child loses its result. |
| `Lives.LastTryIsDispatch` | lib/devicegroups/sequential.go:51-62 | A recorded last try is the time of a message that was sent. |
| `Fairness.DispatchedIsLeast` | lib/devicegroups/devicegroups.go:132-154 | Of fair sub-tasks, a ready one that is least tried among the ready ones is least tried among all unanswered ones, those hidden by the running filter or the budget included. |
| `Fairness.DispatchKeepsFair` | lib/devicegroups/devicegroups.go:132-154 | Trying it keeps the unanswered sub-tasks fair. |
| `Fairness.UntriedIsFair` | lib/devicegroups/sequential.go:29-40 | Sub-tasks without a stored state start fair. |
| `Fairness.RoundRobinIsFair` | lib/devicegroups/devicegroups.go:132-154 | In one life of a task whose children start fair, under any responses and clock, the try counts of two unanswered children differ by at most one, and one tried longer ago is not ahead. |
| `Fairness.FirstLifeIsFair` | lib/devicegroups/devicegroups.go:132-154 | In the first life of a task that holds without any condition. |
| `Fairness.LifeIsFairIff` | lib/devicegroups/devicegroups.go:132-154 | A life is fair throughout if and only if it is once its family is stored. |
| `Fairness.CreationIsFairIff` | lib/devicegroups/devicegroups.go:132-154 | A family is fair then if and only if the old counts of its children without a late result are fair, or the sub-task sent at once, if it is one of them, makes them so. |
| `Fairness.OldTriesAreUnfair` | lib/devicegroups/devicegroups.go:431-436 | A second life starts unfair if one child was sent three times more often in earlier lives than another. |
| `SecondLife.SecondLifeCanBeUnfair` | lib/devicegroups/devicegroups.go:431-436 | For every timeout there is a run of ROUND_ROBIN, on a group of two devices, whose second life starts unfair. |
| `SecondLife.CanCall` | lib/devicegroups/devicegroups.go:132-154 | Whichever least tried sub-task is picked, there is a call that sends it: the choice among ties is really open. |
| `Termination.QuietCallProgresses` | lib/devicegroups/devicegroups.go:98-154 | A delivery more than the timeout after every earlier call for the task completes it, fails, or sends a message; it never just waits. |
| `Termination.LivesUntilEnd` | lib/devicegroups/devicegroups.go:421-437 | A family disappears only in a step that reports its task as done or failed. |
| `Termination.MessagesPerLife` | lib/devicegroups/devicegroups.go:112-154 | A task with N children and R retries gets at most N*(R+1) messages until it ends. |
| `Termination.TaskEnds` | lib/devicegroups/devicegroups.go:112-154 | Among more than N*(R+1) such deliveries since the family was stored, the task has been completed or reported as failed. |
| `ParallelRounds.ProcessIsRound` | lib/devicegroups/devicegroups.go:155-169 | A call of PARALLEL fails without a message, gives up without a message, or sends one for every open child and counts the round. |
| `ParallelRounds.CounterIsRounds` | lib/camunda/camunda.go:258-297 | If Camunda hands back the last reported value, that value is the number of rounds of the task so far. |
| `ParallelRounds.RoundBound` | lib/devicegroups/devicegroups.go:155-169 | Then a task with at most R retries gets at most R+1 rounds. |
| `ParallelRounds.RoundsCoverUnanswered` | lib/devicegroups/devicegroups.go:155-169 | A call with R retries that does not fail is a round exactly while at most R have been, or R is -1, and it sends one message for each child unanswered at that time, in order. |
| `ParallelRounds.LastRoundEnds` | lib/devicegroups/devicegroups.go:155-166 | After R+1 rounds the next delivery completes the task with results or reports an error. |
| `ParallelRounds.ResultsAreAnswers` | lib/devicegroups/devicegroups.go:155-169 | What a delivery under PARALLEL hands on, given up or not, is the last response of each answered child, in child order; a call that stores the family hands on nothing. |
| `NoEmptyCompletion.FamiliesArePopulated` | lib/devicegroups/devicegroups.go:98-173 | No stored family of a known scheduler is without children between two calls. |
| `NoEmptyCompletion.EndsWithResults` | lib/devicegroups/devicegroups.go:117-125 | Under SEQUENTIAL and ROUND_ROBIN a call that gives up reports an error exactly if it has no result, and a finished response always has one. |
| `NoEmptyCompletion.GivenUpCarriesAnswered` | lib/devicegroups/devicegroups.go:112-154 | A task that is given up is completed with the last response of each answered child, in child order, and there is at least one. |
| `NoEmptyCompletion.ParallelEmptyCompletion` | lib/devicegroups/devicegroups.go:155-169 | PARALLEL completes a task with nothing if and only if the task is unknown, its command has no sub-task, and rounds are left. |
| `NoEmptyCompletion.ParallelRunEmptyCompletion` | lib/devicegroups/devicegroups.go:155-169 | The same for every delivery in every run. |
| `NoEmptyCompletion.EmptyGroupCompletes` | lib/devicegroups/devicegroups.go:155-169 | The first delivery of a command to a group without devices completes its task with nothing. |
| `TopicMutex.MutualExclusion` | lib/camunda/topicmutex.go:27-61 | In every run of any number of threads at most one is between `Lock(t)` returning and `Unlock(t)`, although mutex objects come and go. |
| `TopicMutex.Counting` | lib/camunda/topicmutex.go:27-61 | While `global` is free, count[t] is the number of waiters and the holder of t, and both maps hold exactly the topics somebody waits for or holds. |
| `TopicMutex.GlobalSectionNeverBlocks` | lib/camunda/topicmutex.go:39-44 | A thread that holds `global` is never stopped: not by locking its fresh object, not by unlocking one that is not locked. |
| `TopicMutex.Progress` | lib/camunda/topicmutex.go:27-61 | In every reachable state with a thread that is not idle, some thread that is not idle has a step. |
| `TopicMutex.StepsAdvance` | lib/camunda/topicmutex.go:27-61 | Every step inside `Lock(t)` brings the thread closer to holding t, every step inside `Unlock` closer to being idle; a holder leaves only by unlocking its topic. |
| `TopicMutex.TopicMutexObject.LockSection` | lib/camunda/topicmutex.go:35-44 | The section of `Lock` changes counter, map and heap exactly as the step of the transition system. |
| `TopicMutex.TopicMutexObject.UnlockSection` | lib/camunda/topicmutex.go:50-60 | The section of `Unlock` likewise. |
| `Completion.CompletionsAreSpaced` | lib/camunda/camunda.go:158-231 | With any number of concurrent callers, two successful completions of one tenant and task are at least half the fetch-lock duration apart. |
| `Completion.RequestsPerCall` | lib/camunda/camunda.go:171-231 | A call sends at most two complete requests and raises at most one incident; when it does which is `CompletionOutcome.CallOutcome`. |
| `CompletionOutcome.CallOutcome` | lib/camunda/camunda.go:171-231 | In every run and for every call that is over: answered from the cache or without a shard it has sent nothing. Else it has sent one request if and only if that succeeded and two otherwise; it has raised one incident if and only if the second was refused; and its task is logged as completed by it if and only if one of them succeeded. |
| `CompletionOutcome.LookupIff` | lib/camunda/camunda.go:158-170 | The call is answered from the cache if and only if its key has an entry that has not expired, goes on to the request if and only if the shard is found, and what it remembers is valid for half a lock duration. |
| `CompletionOutcome.RememberedForHalf` | lib/camunda/camunda.go:158-231 | In every run, from the moment a successful call is remembered every lookup of its key within half a lock duration is answered from the cache, by whichever thread. |
| `CompletionOutcome.SectionAdvances` | lib/camunda/camunda.go:158-231 | Every step of a holder moves its call on, so it is over after five; a request step sends exactly one request and records its answer. |
| `Completion.CachedCallSendsNothing` | lib/camunda/camunda.go:158-169 | A call answered from the cache sends no request and raises no incident, up to its unlock. |
| `Completion.KeyIsUniqueIff` | lib/camunda/camunda.go:158-160 | A task shares lock and cache entry with no other task if and only if neither its id nor its tenant's holds a '+'. |
| `Completion.HitIsOwn` | lib/camunda/camunda.go:158-169 | In every run, a call answered from the cache for a task with a key of its own comes after a completion of this very task of this very tenant. |
| `Completion.RememberedIsOwnIff` | lib/camunda/camunda.go:158-169 | That holds of every call for a task in every run if and only if neither its id nor its tenant's holds a '+'. |
| `Completion.OtherTenantAnswers` | lib/camunda/camunda.go:158-169 | A run in which task "c" of tenant "a+b" is answered from the cache, with task "b+c" of tenant "a" as the only completion. |
| `Completion.KeysCanCollide` | lib/camunda/camunda.go:158-160 | With a '+' in a task id, tasks of two tenants share them. |
| `Timescale.CastRequest` | lib/timescale/timescale.go:82-106 | For every order of the maps: one element per requested device and service, with its columns in request order. |
| `Timescale.IndexQuery` | lib/timescale/timescale.go:109-125 | Both index maps hold the last position of each element and of each column in it, and know the same pairs. |
| `Timescale.CastQueryResponse` | lib/timescale/timescale.go:108-169 | Success gives the cell of every request in order; otherwise the first failing request decides between error and panic. |
| `Timescale.CellAt` | lib/timescale/timescale.go:145-166 | Where the last position of a request's column in its element is j of element i: error, panic, nil or the value one after j, case by case for every length of the response and of its row. |
| `Timescale.QueryRoundTrip` | lib/timescale/timescale.go:82-169 | If every element is answered by one row or none, un-grouping succeeds, and entry k is the value of request k's device, service and column, or nil. |
| `Timescale.SucceedsIffFits` | lib/timescale/timescale.go:145-166 | Un-grouping succeeds if and only if the response has an entry per element and each single row a value per column. |
| `Timescale.ShortResponsePanics` | lib/timescale/timescale.go:152-155 | One request and an empty response: the guard lets the index through. |
| `Nested.SetPathAt` | lib/event.go:140-162 | A value that can be set is read back at its path. |
| `Nested.SetPathElsewhere` | lib/event.go:140-162 | Setting a path changes no path apart from it. |
| `Nested.SetPathCommutesApart` | lib/event.go:140-162 | Setting paths that are apart commutes. |
| `Nested.SetAllAt` | lib/event.go:132-136 | Of prefix-free paths every one is read back after all are set. |
| `Nested.SetAllOnly` | lib/event.go:132-136 | Nothing else is in the map than the set paths, what is below their values, and the maps on the way. |
| `Nested.SetAllOrderIrrelevant` | lib/event.go:132-136 | Prefix-free paths give one map in every order. |
| `NestedObject.SetPath` | lib/event.go:140-162 | The Go maps, changed in place and extended by fresh ones, show exactly the value of the specification; nothing outside them is touched. |
| `LastValue.CreateTimescaleRequest` | lib/event.go:173-186 | One request per content path of the outputs, in order. |
| `LastValue.RequestedIff` | lib/event.go:188-204 | A column is requested if and only if it joins the names down a chain of sub-variables to one without any: all of them named and none of them a list. |
| `LastValue.LeavesAreApart` | lib/event.go:188-204 | Leaves of outputs with distinct, dot-free names are no beginnings of each other. |
| `LastValue.GetTimescaleValue` | lib/event.go:119-138 | Fails exactly if times are required and one is missing; otherwise the map is built by setting every answer in name order. |
| `LastValue.LastAnswerCounts` | lib/event.go:119-138 | Of several requests for one column the last answer is the one the value is built of. |
| `LastValue.ValueHoldsAnswers` | lib/event.go:119-162 | For columns of which none is the beginning of another the map reads every answer at its column, holds nothing else, and is the same for every order. |
| `Nested.AllReadIffCompatible` | lib/event.go:132-162 | In whatever order paths are set, every value can be read back if and only if, where one path is the beginning of another, its value is a map that holds the other's. |
| `LastValue.AnswersKeptIffCompatible` | lib/event.go:119-162 | Every answer can be read back if and only if that holds of columns and answers. |
| `LastValue.ScalarAnswersKept` | lib/event.go:119-162 | Where no answer is a map: if and only if no column is the beginning of another. |
| `LastValue.UntimedIsMissing` | lib/event.go:119-128 | The value made of un-grouped answers is the missing-time error if and only if times are required and something was requested. |
| `LastValue.LastValueRoundTrip` | lib/event.go:73-204 | Flattening the outputs, grouping, answering, un-grouping and nesting gives a value if and only if times are not required or nothing is requested, and that value is the map with the answered value at every leaf and nothing else. |
| `Paths.SplitJoin` | lib/event.go:134-196 | Splitting undoes joining if no part holds a dot. |
| `Decimal.ParsePrinted` | lib/devicegroups/devicegroups.go:354-354 | Printed indexes are undone by parsing and consist of digits. |
| `Decimal.AtoiUndoesItoa` | lib/worker.go:511-531 | Every Go int survives `strconv.Itoa` and `strconv.Atoi`. |
| `Payload.ConversionsRoundTrip` | lib/worker.go:505-571 | An int written into a string, and a bool written into a string, number or int, comes back when the result is written into an element of its own kind. |
| `Payload.SetVarResolves` | lib/worker.go:497-608 | An update succeeds if and only if its path names a node of a kind that accepts the value, and then exactly `Payload.Convert` of both is there, which the next rows describe. |
| `Payload.ConvertsIff` | lib/worker.go:505-571 | A value is accepted if and only if value and element are scalars and a text can be read as the kind of the element; the kind of the element stays. |
| `Payload.OwnKindIsWritten` | lib/worker.go:505-571 | A scalar put into an element of its own kind is written as it is. |
| `Payload.OtherKindsAreWritten` | lib/worker.go:505-571 | For every other pair: numbers are true from 1 on, bools are 1 and 0 or "true" and "false", an int keeps its value as a float and a printed one parses back, floats are truncated and formatted and texts read as Go's `strconv` does. |
| `Payload.ValueIsWritten` | lib/worker.go:497-608 | After a successful update the node at the place is the value itself, if it is of the kind of the node before. |
| `Payload.RefusedLeaves` | lib/worker.go:505-571 | What a refused value leaves in the place of the whole input: a scalar of the same kind if only its text cannot be read, false or a bound of the range or zero; otherwise the value itself, or nil where a container is given JSON text. |
| `Payload.SetVarInField` | lib/worker.go:585-592 | A path goes on below the field its first part names and changes that field only; a missing field is an error, a recovered panic, that changes nothing. |
| `Payload.SetVarInItem` | lib/worker.go:593-604 | Or below the item whose index its first part spells; anything else is an error that changes nothing. |
| `Payload.SetVarKeepsShape` | lib/worker.go:497-608 | A successful update keeps every key set, list length and kind of node. |
| `Payload.SetVarElsewhere` | lib/worker.go:497-608 | A successful update leaves every place apart from its own as it was. |
| `Payload.SetVarCommutes` | lib/worker.go:497-608 | Successful updates of places that are apart commute. |
| `Payload.FailureChangesNothing` | lib/worker.go:497-608 | A failed update, by error or recovered panic, leaves the element as it was if and only if it goes below it or what it gives instead is the same value; exactly which values those are is decided by `LeavesElement`. |
| `SetPayload.CommuteIffNoClash` | lib/command.go:109-122 | Two updates, named or of the whole input, leave the same input in either order if and only if they do not clash. |
| `SetPayload.InputIrrelevantIff` | lib/command.go:109-122 | The input after the loop is the same for every order of the Go map if and only if no two parameters clash; beside one without a name, if and only if none of the others changes what that leaves. |
| `SetPayload.ErrorIrrelevantIff` | lib/command.go:109-122 | Whether an error is returned is the same for every order if and only if, coming last, every parameter fails, or none does. |
| `SetPayload.OrderIrrelevantIff` | lib/command.go:109-122 | Input and error are the same for every order if and only if both conditions hold. |
| `SetPayload.NamedOrder` | lib/command.go:109-122 | For named parameters the second condition is that on the given input all can be set or none can. |
| `SetPayload.UnnamedOrder` | lib/command.go:109-122 | Beside a parameter without a name input and error are the same for every order if and only if that one cannot be set and no other one can be set on what it leaves. |
| `SetPayload.OrderDecidesError` | lib/command.go:109-122 | Two parameters that do not clash, of which the order decides whether the task is refused. |
| `SetPayload.UnnamedFailureReplaces` | lib/command.go:111-112 | An input, and a parameter without a name that cannot be set and still replaces it. |
| `SetPayload.SpellingsClash` | lib/worker.go:593-604 | "a.1" and "a.01" clash although neither is the beginning of the other. |
| `PayloadObject.Container.Assign` | lib/worker.go:585-604 | Setting one slot keeps the containers a tree and changes exactly that slot of the shown value. |
| `PayloadObject.SetVarOnPath` | lib/worker.go:497-608 | The recursion over maps and slices in place returns and shows exactly what the update on values gives, keeps the tree of containers, and touches nothing outside it; on an error nothing has changed. |
| `PayloadObject.SetPayloadParameter` | lib/command.go:109-122 | The loop applies every parameter once, in some order; the input shows, and the returned error is, the outcome of that order. |
| `Shards.ShardsDb.EnsureShardForUser` | lib/camunda/shards/shards.go:98-132 | A known user keeps its shard; an unknown one gets a shard with the fewest users, or an error if there is none. |
| `Shards.ShardsDb.SelectShard` | lib/camunda/shards/shards.go:140-156 | In any order of the counts the loop ends at a shard no other has fewer users than. |
| `Shards.ShardsDb.SetShardForUser` | lib/camunda/shards/shards.go:71-96 | An explicit assignment replaces the stored one and drops the cached one; an unknown shard changes nothing. |
| `Shards.RunConsistent` | lib/camunda/shards/shards.go:45-132 | In every run each cached entry equals the stored mapping and each mapped shard exists. |
| `Shards.CacheIsTransparent` | lib/camunda/shards/shards.go:45-54 | A lookup answers with the stored mapping, from the cache or not. |
| `Shards.FoundIsCached` | lib/camunda/shards/shards.go:45-54 | A shard that a lookup has found is answered from the cache in every later state of the run, until the entry is forgotten or the user is assigned explicitly. |
| `Shards.GivenShardStays` | lib/camunda/shards/shards.go:45-132 | In every run: the shard an operation has given a user is what every later lookup gives, until the user is explicitly assigned another. |
| `Shards.EnsureGivesIff` | lib/camunda/shards/shards.go:98-132 | Ensuring gives a user a known shard if and only if the user has one or there is any. |
| `Shards.OthersKeepShards` | lib/camunda/shards/shards.go:45-132 | No operation changes the shard of a user it is not for, and only adding one changes the set of shards, by that one. |
| `Shards.BalanceIsKept` | lib/camunda/shards/shards.go:98-156 | Without explicit assignments a run never moves an assigned user and never widens the gap between shards beyond what it was, or 1. |
| `Shards.BalanceFromEmpty` | lib/camunda/shards/shards.go:98-156 | From an empty mapping the largest and the smallest shard differ by at most one user. |
| `Shards.EveryUserCounted` | lib/camunda/shards/shards.go:158-176 | With explicit assignments too, the counts of all shards add up to the number of users. |

## Left out

- Kafka, HTTP, memcached, SQL, Keycloak, metrics, logging, tracing and configuration: plumbing around the modelled logic.
- A complete request that Camunda accepts while its answer is lost counts as not completed, as `completeTask` takes it.
- Expiry and failure of the store with the retry loops of `dbGet` and `dbSet`: the store is assumed to keep its entries.
- Two `ProcessCommand` calls interleaved on one task: the read-modify-write of the try count is unprotected, so the bounds on messages hold for atomic calls.
- Concurrent shard transactions: balance is not promised under read-committed isolation.
- The unmarshalling of incoming responses, `CheckCamundaDuration`, the decoding of modifier parameters and the content of protocol messages: flat branches or library calls.
- `ExecuteTaskBatch` and the queue of response workers run the modelled operations in several goroutines: the contracts of `Worker.CmdWorker` are about one chain of calls that no other goroutine interrupts, while the theorems about runs hold for any interleaving of whole `ProcessCommand` and `ProcessResponse` calls.
- `LastValue.GetTimescaleValue`: builds the result on map values; that `setPath` does the same on shared Go maps is `NestedObject.SetPath`, for an answered value that is not shared with the result.

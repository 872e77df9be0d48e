# Verification of the Neural Networks runtime

This project models the parts of the Neural Networks runtime that carry a model from
validation to its results, and proves what they promise. Operands, operations and models are
values. A model is a tree: an interpreted IF or WHILE carries the models it refers to. Tensor
operations are an unknown partial function from input values to output values, so the
theorems hold for every driver. Code that changes things step by step is a class or a method
with loops, proved against functions about which the theorems are stated.

- **Plans.** `Models`, `Semantics`, `Scheduling`, `Blocking`: models, their nested meaning,
  schedules, and runs that come to an operation that cannot pass its inputs on. `FlatPlans`,
  `Machine`: the flat code with jumps, and the machine that next() is. `Invariants`,
  `Partitions`, `Simulation`, `PartitionSteps`, `Sites`, `Passing`, `Branches`, `Loops`,
  `Flattening`, `Runs`: the flat run and the nested run go side by side. `Meanings`: what a
  model means, as a relation without an order of operations or a bound on loops. `Progress`:
  every call of next() ends.
- **The controller.** `Places`, `Controllers`: the four maps, their swaps and moves, and the
  loop states, as the runtime updates them. `Homes`, `Layouts`, `ControllerStarts`: the
  memory for temporaries and the state before the first step. `Ownership`, `OwnedPlans`: what
  steps write is only ever where it can be written.
- **The partitioner.** `ExecutionSteps`, `StepRoles`, `Trackers`, `Queues`, `Partitioner`,
  `Temporaries`: the heuristic, the wiring of step models and which of their inputs and
  outputs are those of the main model, the emission of control flow, and the last pass.
  `Executions` puts partitioning, controller and run together.
- **The CPU executor.** `CpuMemories`, `CpuCalls`, `CpuLoops`, `CpuSizes`, `CpuExecutors`:
  buffers that are allocated, counted, shared with subgraphs, double buffered in loops and
  freed, and whether values fit them.
- **Bursts.** `Packets`, `BurstMemories`, `Bursts`, `BurstCalls`: the packets of the burst
  protocol, the slots of the client, the cache of the server, the two running against each
  other, and the calls of a whole run.
- **Slicing.** `Graphs`, `Slices`, `SliceMeanings`, `Compliance`: validation of graphs, what an
  older version of the interface can express, slices for older devices and what they compute.
- **Execution.** `Fallbacks`, `Notifications`: fallback to the CPU, and the callback with
  its threads.
- **Smaller parts.** `ReferenceCycles`, `ChannelOrders`, `InverseSquareRoots`,
  `IndexedShapes`.

`Options`, `Arithmetic` and `Sequences` hold what several of these share.

## Findings

- An interpreted IF or WHILE that has an omitted operand or a model among the inputs it
  passes on, or as its condition, runs in the CPU executor but crashes in the plan:
  `setInput` looks for a location that nothing has (nn/runtime/ExecutionPlan.cpp:1189-1221).
  `Omitted.FlatteningFailsOnOmittedOperand` has a valid model for which this happens, and
  `Omitted.RunsOnTheCpu` runs it on the CPU.
  `Runs.FlatteningPreservesMeaning` gives the exact condition for every model and input, and
  `Runs.CheckedBeforeTheRun` what a caller can tell before the run.
- For a main output that a later step reads, the roles reported number that input among the
  main outputs that the step reads, not among all its inputs, where main inputs and
  temporaries come first (nn/runtime/ExecutionPlan.cpp:1592-1598 and 494-502).
  `StepRoles.ReportsTheWrongInput` is a step for which another input is reported.
  `StepRoles.InputsAreRightExactly`: the roles are right exactly if every step that reads the
  output reads main outputs only.
- A burst server that finds several slots unknown gives the execution the client's memories
  exactly if all of those slots are valid, or all of them are empty
  (nn/common/ExecutionBurstServer.cpp:564-600, `BurstMemories.PoolsAreTheClients`): one that
  is not valid keeps all of them out of the cache, as in `BurstMemories.OneInvalidHidesAll`.
- A request packet whose number of pools differs from its number of slots is sent, and
  rejected by the receiver (nn/common/ExecutionBurstController.cpp:71-149 and
  nn/common/ExecutionBurstServer.cpp:164-309, `Packets.RequestRoundTrip`). An example is
  `Packets.RequestWithMissingSlot`.

That slicing looks up an operand which refers to a model would stop it (`Slices.MakeSlice`),
but no input gets there: such an operand makes its operation noncompliant in every version
that slices are made for (`Compliance.NoModelIsRead`).

## Model

| member | source | states |
|---|---|---|
| Runs.FlatteningPreservesMeaning | nn/runtime/ExecutionPlan.cpp:1619-1848 | for every valid tree of models, schedule, kernels and arguments: the flat run leaves given values in the main outputs exactly if the nested run ends with them, with enough fuel for its loops, and comes to no interpreted operation that is not passable |
| Runs.CheckedBeforeTheRun | nn/runtime/ExecutionPlan.cpp:1260-1426 | what can be told before a run: where everything is passable both runs end alike; where a blocked operation cannot be avoided the flat run never ends; if no model referred to has a blocked operation, the flat run ends exactly if the nested one does and every operation of the main model is passable |
| Runs.BlockedRunsCrash | nn/runtime/ExecutionPlan.cpp:1189-1221 | where the nested run ends but has come to an operation that is not passable, the flat run crashes |
| Runs.CrashesAreFailures | nn/runtime/ExecutionPlan.cpp:1139-1165 | a flat run crashes exactly if the nested run, in the order of the schedule, fails |
| Runs.OneEnd | nn/runtime/ExecutionPlan.cpp:1139-1165 | a run has one end, however many steps one allows it |
| Runs.RunsAgree | nn/runtime/ExecutionPlan.cpp:1139-1426 | side by side for any fuel: the nested run ends, fails or runs out of fuel, and the flat run ends with the same values, crashes, or has taken at least that many steps |
| Meanings.NestedRunMeans | nn/common/CpuExecutor.cpp:1743-1907 | for every valid model: the nested run ends with given values, for some bound on its loops, exactly if some values of all operands agree with arguments, constants, results and every operation; an IF means its first model where the first byte of the condition is not zero and else its second, a WHILE has a chain of states, true conditions between them and a false one at the end |
| Meanings.OneMeaning | nn/common/CpuExecutor.cpp:1743-1907 | a valid model means at most one list of results |
| Meanings.FlatRunMeans | nn/runtime/ExecutionPlan.cpp:1260-1426 | the flat run of any schedule leaves given values exactly if they are what the model means, where everything is passable |
| Meanings.OneIf | nn/runtime/ExecutionPlan.cpp:1260-1297 | a model that is one IF: on the flat plan a first byte other than zero gives exactly what the first model means, zero exactly what the second one means |
| Meanings.LoopIsLeft | nn/common/CpuExecutor.cpp:1852-1904 | where the condition gives a first byte of zero, the loop ends with the front of its state as it is |
| Meanings.LoopGoesRound | nn/common/CpuExecutor.cpp:1852-1892 | where the condition gives another first byte, the loop goes on with the values of the body in front of the rest of its state |
| Flattening.SiteRuns | nn/runtime/ExecutionPlan.cpp:1260-1426 | from the entry of any part of the plan, the steps follow the nested run of that part and leave its values where the outputs were directed |
| Flattening.LoopGoesOn | nn/runtime/ExecutionPlan.cpp:1299-1418 | from the condition of a loop in any iteration, the steps follow the remaining iterations, with the buffers swapped in each, and leave the loop with its state in the outer outputs |
| Blocking.PlanMeansModel | nn/runtime/ExecutionPlan.cpp:1664-1848 | a run in the order of any schedule has the result of the run as written, unless that comes to a blocked operation, and then it fails |
| Blocking.BlocksAnywhere | nn/runtime/ExecutionPlan.cpp:1189-1221 | a run that ends has come to a blocked operation exactly if one is blocked by the values at the end, in whatever order the operations ran |
| Scheduling.OrderDoesNotMatter | nn/runtime/ExecutionPlan.cpp:1664-1717 | two orders of the same operations, each reading nothing before it is written, end in the same environment or both do not end |
| Omitted.FlatteningFailsOnOmittedOperand | nn/runtime/ExecutionPlan.cpp:1189-1221 | a valid model whose nested run ends in the CPU executor and whose flat run crashes: an interpreted IF has an omitted operand to pass on |
| Omitted.RunsOnTheCpu | nn/common/CpuExecutor.cpp:1743-1779 | the CPU executor runs that model with one buffer for its output, and leaves the value there |
| Progress.EveryCallEnds | nn/runtime/ExecutionPlan.cpp:1139-1165 | a call of next() takes fewer control flow steps than a rank computed from the plan and the loop states; it never goes on for ever |
| Progress.CallComesTo | nn/runtime/ExecutionPlan.cpp:1139-1187 | a call that does not crash comes to an execution step or to the end of the plan |
| Progress.StepKeepsCoherent | nn/runtime/ExecutionPlan.cpp:1260-1426 | every move keeps the loop states coherent with where control is, and every control flow step lowers the rank |
| Ownership.StepKeepsOwned | nn/runtime/ExecutionPlan.cpp:1189-1244 | every move keeps each operand that any step writes where it can be written, in a plan that gives none of these the place of an input |
| OwnedPlans.PlanIsSeparated | nn/runtime/ExecutionPlan.cpp:1619-1848 | the plan of every schedule of a valid model gives no operand that some step writes the place of an input |
| OwnedPlans.StartIsOwned | nn/runtime/ExecutionPlan.cpp:860-979 | at the start every operand that a step writes is where it can be written |
| Controllers.Controller.SetInput | nn/runtime/ExecutionPlan.cpp:1189-1221 | moves the location of an operand from whichever of the four maps has it; fails exactly when none has it once the inner operand has been erased, and then that is all that has changed |
| Controllers.Controller.SetOutput | nn/runtime/ExecutionPlan.cpp:1223-1244 | does what the machine does where the machine can, and no key is in two maps afterwards; fails exactly when the outer operand has no temporary and is no output, or is the inner one, and then the inner one has been erased |
| Controllers.Controller.ReadConditionValue | nn/runtime/ExecutionPlan.cpp:1078-1090 | true exactly if the operand, wherever the maps put it, has a first byte other than zero; fails exactly as the machine does |
| Controllers.Controller.SwapBuffers | nn/runtime/ExecutionPlan.cpp:1366-1378 | exchanges the two temporaries of each body output, one operand at a time, and nothing else; it succeeds only where both are there |
| Controllers.Controller.CopyOperands | nn/runtime/ExecutionPlan.cpp:1383-1412 | copies operand by operand what the machine copies, wherever the buffers are, and succeeds only where it can |
| Controllers.Controller.TakeIf | nn/runtime/ExecutionPlan.cpp:1260-1297 | one IF step takes the state to that of the machine, and succeeds only if the machine does |
| Controllers.Controller.TakeWhile | nn/runtime/ExecutionPlan.cpp:1299-1418 | one WHILE step, in any of its stages, takes the state to that of the machine, and succeeds only if the machine does |
| Controllers.Controller.NextCompound | nn/runtime/ExecutionPlan.cpp:1139-1187 | a call of next() takes all control flow steps up to the next execution step or the end and stands for the state that the machine comes to; it fails exactly if the machine crashes on the way |
| Controllers.Controller.Fallback | nn/runtime/ExecutionPlan.cpp:981-1000 | the last execution step is the next again, with nothing that operands are mapped to changed; it fails exactly if there is none or the plan is at its end |
| Controllers.Controller.Run | nn/runtime/ExecutionPlan.cpp:1092-1187 | rounds of next() and execution: it finishes exactly with the contents at the machine's end, and otherwise the machine has crashed or takes more steps than the budget |
| Homes.SiteOnce | nn/runtime/ExecutionPlan.cpp:848-966 | no two steps of a plan define the same temporary, in all the models that it refers to |
| Layouts.TemporaryLayout.AddTemporaryOfSize | nn/runtime/ExecutionPlan.cpp:846-852 | the next aligned offset in 32 bits, and the exact total grown by the alignment and the size; without overflow the offset is where the exact total says |
| Layouts.TemporaryLayout.LayOut | nn/runtime/ExecutionPlan.cpp:860-883 | one region more, and the total grows by it: all stay aligned, apart and within the total while that fits 32 bits |
| Layouts.TemporaryLayout.LayOutSteps | nn/runtime/ExecutionPlan.cpp:886-962 | lays out each operand that steps need, once or twice, and fails nowhere on a plan that fits; the total is that of these operands in the order of the plan |
| Layouts.TemporaryLayout.LayOutConstants | nn/runtime/ExecutionPlan.cpp:963-970 | copies of constants get regions of their own, and the total grows by these |
| Layouts.LowBits | nn/common/Utils.cpp:429-440 | the bits of the inverted preceding index under the mask, in 32 bits, are the bytes up to the next aligned offset |
| Layouts.WriteIsLocal | nn/runtime/ExecutionPlan.cpp:846-883 | writing the bytes of one laid-out region is writing one location and leaves all other locations |
| Layouts.TotalIsBounded | nn/runtime/ExecutionPlan.cpp:846-852 | the total is at least the sum of the sizes and at most three bytes more for each region, so a caller can tell before the run that it fits |
| Layouts.NextAlignedOffset | nn/common/Utils.cpp:429-440 | a region begins at the next even offset if it has two or three bytes, at the next multiple of four if it has more, and else without a gap |
| ControllerStarts.PlanIsFitting | nn/runtime/ExecutionPlan.cpp:860-962 | no lookup or emplacement fails while any plan of the partitioner is laid out |
| ControllerStarts.CopyConstants | nn/runtime/ExecutionPlan.cpp:736-774 | the memory holds the arguments, the references and one copy of each constant that control flow passes on, and nothing else |
| ControllerStarts.MakeController | nn/runtime/ExecutionPlan.cpp:819-979 | the size of the temporaries is the total of the plan and its copied constants; if it fits 32 bits, the new controller stands for the initial state of the plan |
| ExecutionSteps.RenumberingPreservesMeaning | nn/runtime/ExecutionPlan.cpp:196-336 | operations with injectively renumbered operands end, fail and compute as before |
| ExecutionSteps.ExecutionStepBuilder.AddOperand | nn/runtime/ExecutionPlan.cpp:196-302 | numbers an operand of the step model once and records how it crosses the boundary; fails exactly for an output that is numbered already |
| ExecutionSteps.ExecutionStepBuilder.AddOperation | nn/runtime/ExecutionPlan.cpp:304-336 | an operation of the source model with its operands renumbered is added |
| ExecutionSteps.ExecutionStepBuilder.Finish | nn/runtime/ExecutionPlan.cpp:196-302 | the step lists the inputs in the order in which they are read first and the model outputs in the order in which they are written |
| ExecutionSteps.ExecutionStepBuilder.FinishStepModel | nn/runtime/ExecutionPlan.cpp:479-556 | inputs and outputs of the step model are the boundary operands in order, model outputs before temporaries; in a step of the main model each entry of the three index lists is the position of the same operand among the main inputs or outputs |
| ExecutionSteps.StepModelComputes | nn/runtime/ExecutionPlan.cpp:304-336 | for all arguments the step model, with its own operands, gives the outputs that its operations give in the source model |
| StepRoles.RolesOfInput | nn/runtime/ExecutionPlan.cpp:1558-1571 | reports exactly the inputs of step models that are the main input |
| StepRoles.RolesOfOutput | nn/runtime/ExecutionPlan.cpp:1576-1601 | reports the first output that is the main output, and for each step that reads it the position among the main outputs that the step reads |
| StepRoles.InputsAreRightExactly | nn/runtime/ExecutionPlan.cpp:1592-1598 | the inputs that are reported for a main output are that operand exactly if every step that reads it reads main outputs only |
| StepRoles.ReportsTheWrongInput | nn/runtime/ExecutionPlan.cpp:1592-1598 | a step with a main input and a main output as inputs: the main input is reported as the main output |
| Trackers.OperandTracker.Init | nn/runtime/ExecutionPlan.cpp:147-167 | counts the unknown inputs of each operation, with repetition, and reports those that have none |
| Trackers.OperandTracker.MarkProcessed | nn/runtime/ExecutionPlan.cpp:169-183 | counts down the readers of each output as often as they read it and reports exactly the operations that became ready, once |
| Queues.RunsNext | nn/runtime/ExecutionPlan.cpp:1672-1717 | an operation whose inputs are known can be run next |
| Queues.AllArePlaced | nn/runtime/ExecutionPlan.cpp:1694-1704 | when no operation is pending, every operation has been placed |
| Queues.FindNextDeviceToProcess | nn/runtime/ExecutionPlan.cpp:1685-1692 | the last device with work, or none |
| Partitioner.DeviceRound | nn/runtime/ExecutionPlan.cpp:1706-1718 | one execution step takes every operation on the queue of one device, and those that become ready for it, until the queue is empty, in an order in which they can run |
| Partitioner.EmitIf | nn/runtime/ExecutionPlan.cpp:1724-1780 | the steps of an IF are those of the schedule: head, then model, jump, else model, with every index patched |
| Partitioner.EmitWhile | nn/runtime/ExecutionPlan.cpp:1781-1839 | the steps of a WHILE are those of the schedule: head, condition, jump back, body, jump back |
| Partitioner.ControlRound | nn/runtime/ExecutionPlan.cpp:1719-1845 | every interpreted operation that is queued is placed, with the models that it refers to, until the queue is empty |
| Partitioner.PartitionTheWorkInternal | nn/runtime/ExecutionPlan.cpp:1619-1848 | the plan grows by exactly the code of a schedule of the model, before temporaries are made outputs |
| Temporaries.FindTempsAsStepModelOutputs | nn/runtime/ExecutionPlan.cpp:387-425 | records for each step exactly the temporaries it defines that another step reads |
| Temporaries.DraftIsCompleted | nn/runtime/ExecutionPlan.cpp:387-425 | completing the partitioner's draft with those temporaries gives the code of the schedule |
| Temporaries.PartitionTheWork | nn/runtime/ExecutionPlan.cpp:1603-1661 | if one device runs all operations, and only then, there is a single step for it; otherwise the plan is exactly the code of a schedule of the model, and the source models are the main model and those referred to in order |
| Temporaries.StepsOfPlan | nn/runtime/ExecutionPlan.cpp:1706-1718 | every execution step of a plan has operations of one device only, and there is no empty step |
| Executions.FindControlFlowBoundaryConstants | nn/runtime/ExecutionPlan.cpp:681-713 | finds exactly the constants that IF and WHILE steps read or pass on, each once and in the order of their keys, by where their bytes are |
| Executions.OneAscendingList | nn/runtime/ExecutionPlan.cpp:963-970 | constants have one order, so that the total of their copies is determined |
| Executions.EnoughSteps | nn/runtime/ExecutionPlan.cpp:1092-1187 | some budget of steps is enough exactly if the nested run ends without coming to a blocked operation |
| Executions.PartitionAndExecute | nn/runtime/ExecutionPlan.cpp:1603-1617 | a single step exactly if one device takes everything; otherwise refused exactly if the total size of the temporaries needs more than 32 bits; otherwise the values of the flat run are left in the main outputs if the budget is large enough; it gives no values but those that the model means |
| CpuExecutors.CpuExecutor.Run | nn/common/CpuExecutor.cpp:640-680 | with declared sizes a run succeeds exactly if the nested run ends; a successful run leaves the values of the nested run in the output buffers, changes no other buffer, and has freed everything that it allocated |
| CpuExecutors.CpuExecutor.ExecuteSubgraph | nn/common/CpuExecutor.cpp:682-689 | runs the operations in order; what it allocates is its own, live and counted; with sizes and room it succeeds exactly if the operations end |
| CpuExecutors.CpuExecutor.ExecuteIfOperation | nn/common/CpuExecutor.cpp:1743-1779 | succeeds only if the condition has a buffer and the model chosen by its first byte ends: the first one where it is not zero, else the second; the outer outputs hold its results |
| CpuExecutors.CpuExecutor.ExecuteWhileOperation | nn/common/CpuExecutor.cpp:1781-1907 | condition and body alternate, body outputs in one of two sets of buffers by the parity of the iteration; the result is that of the loop and no buffer leaks; with sizes and room it succeeds exactly if the loop ends |
| CpuExecutors.CpuExecutor.WriteOutput | nn/common/CpuExecutor.cpp:154-228 | a value is put into a new or existing buffer of an operand; only that operand changes; fails exactly if the existing buffer is too small |
| CpuExecutors.CpuExecutor.ConsumeOperationInputs | nn/common/CpuExecutor.cpp:609-626 | each temporary is freed at its last use, never before |
| CpuExecutors.CpuExecutor.FreeUnusedSubgraphOperands | nn/common/CpuExecutor.cpp:628-637 | frees exactly the temporaries that are left |
| CpuExecutors.CpuExecutor.InitializeRunTimeInfo | nn/common/CpuExecutor.cpp:691-738 | each operand starts with its constant or no buffer and with its number of uses |
| CpuExecutors.CpuExecutor.CallSubgraph | nn/common/CpuExecutor.cpp:1760-1779 | a subgraph that is called on the caller's buffers hands back the outputs and nothing else; with sizes and room it succeeds exactly if the subgraph ends |
| Packets.RequestRoundTrip | nn/common/ExecutionBurstController.cpp:71-149 | for every request: it is received as it was sent exactly if it has as many slots as pools, counted in 32 bits, and its packet fits 32 bits; otherwise the packet is rejected |
| Packets.RequestWithMissingSlot | nn/common/ExecutionBurstServer.cpp:256-309 | a request for two pools with one slot is rejected |
| Packets.SmallRequest | nn/common/ExecutionBurstController.cpp:71-149 | the packet of a request with an input, an output with dimensions and two pools, datum by datum |
| Packets.SmallReply | nn/common/ExecutionBurstServer.cpp:112-161 | the packet of a reply with one output shape, datum by datum |
| Packets.AcceptedRequestWasSent | nn/common/ExecutionBurstServer.cpp:164-309 | what is accepted is the packet of what was read, datum by datum |
| Packets.ReplyRoundTrip | nn/common/ExecutionBurstServer.cpp:112-161 | a reply is received as it was sent exactly if its packet fits 32 bits |
| Packets.AcceptedReplyWasSent | nn/common/ExecutionBurstController.cpp:152-232 | an accepted reply is the packet of what was read |
| Packets.SerializeRequest | nn/common/ExecutionBurstController.cpp:71-149 | the loops write the packet of the request |
| Packets.SerializeReply | nn/common/ExecutionBurstServer.cpp:112-161 | the loops write the packet of the reply |
| Packets.DeserializeRequest | nn/common/ExecutionBurstServer.cpp:164-309 | the loops read what the packet says, with the outcome of every malformed packet |
| Packets.DeserializeReply | nn/common/ExecutionBurstController.cpp:152-232 | the loops read what the packet says, with the outcome of every malformed packet |
| BurstMemories.SlotsRunOut | nn/common/ExecutionBurstController.cpp:442-472 | slots run out exactly if more keys are bound than there are slots |
| BurstMemories.GetSlotsKeeps | nn/common/ExecutionBurstController.cpp:414-425 | every key gets a slot bound to it alone, and what was bound stays bound to the same memory |
| BurstMemories.FreedKeeps | nn/common/ExecutionBurstController.cpp:427-440 | freeing a key empties its slot and touches no other |
| BurstMemories.ExecutionBurstCallback.AllocateSlotLocked | nn/common/ExecutionBurstController.cpp:456-472 | pops a free slot or takes one never used, or stops when there are too many |
| BurstMemories.ExecutionBurstCallback.GetSlots | nn/common/ExecutionBurstController.cpp:414-425 | looks up or binds a slot for each memory in order |
| BurstMemories.ExecutionBurstCallback.FreeMemory | nn/common/ExecutionBurstController.cpp:427-440 | reports the slot of a bound key and frees it; reports nothing for another |
| BurstMemories.ExecutionBurstCallback.GetMemories | nn/common/ExecutionBurstController.cpp:392-412 | the memories of the slots, or none if one is not valid |
| BurstMemories.PoolsAreTheClients | nn/common/ExecutionBurstServer.cpp:564-600 | the pools of an execution are the client's memories exactly if all slots unknown to the server are valid, or all of them are empty |
| BurstMemories.OneInvalidHidesAll | nn/common/ExecutionBurstServer.cpp:564-600 | one valid and one invalid memory, both unknown to the server: the execution gets neither |
| BurstMemories.EnsureCacheEntriesArePresentLocked | nn/common/ExecutionBurstServer.cpp:564-600 | asks for the unknown slots, each once and in order, and enters all of them or none |
| BurstMemories.DefaultBurstExecutorWithCache.ConvertSlotsToPools | nn/common/ExecutionBurstServer.cpp:73-81 | gives each slot its entry, and makes an empty one where there is none |
| Bursts.CachingIsTransparent | nn/common/ExecutionBurstController.cpp:583-618 | in every run of client and server: a call falls back exactly if its packet has more than 1024 data; the answer to any other call is the reply of the execution right before it, of the same request, if its packet has at most 1024 data, and else a general failure without shapes; that execution had what the client has for the slots exactly if the client had all or none of the memories that the server did not know; it had the memories passed if these were valid and named by their keys |
| Bursts.MemoriesAgree | nn/common/ExecutionBurstServer.cpp:558-642 | after every run: nothing is in the channels when the client is idle, at most one side has something in its channel, and every valid entry of the server is the client's memory in a bound slot |
| Bursts.StepKeeps | nn/common/ExecutionBurstServer.cpp:604-642 | every step of client or server keeps the invariant |
| Bursts.SomeStepIsPossible | nn/common/ExecutionBurstController.cpp:583-629 | no call is stuck: while the client waits, some step is possible |
| Bursts.EveryCallEnds | nn/common/ExecutionBurstController.cpp:583-629 | a call ends after at most nine further steps of either side |
| Bursts.BadRequestIsRefused | nn/common/ExecutionBurstServer.cpp:605-620 | a request that cannot be read is not executed, and the client gets a general failure |
| Bursts.BadResultIsNoAnswer | nn/common/ExecutionBurstController.cpp:604-612 | a result that cannot be read ends the call without an answer |
| BurstCalls.NoCallIsLost | nn/common/ExecutionBurstController.cpp:583-618 | in every run the calls that are over and the one that is going on are those that were started, in order and with what they were given |
| BurstCalls.ExecutionsGetTheMemories | nn/common/ExecutionBurstServer.cpp:604-642 | if every call passes valid memories under keys that name them, every execution that answers a call gets exactly the memories passed to it, whatever was cached and freed in between |
| Graphs.ValidateGraph | nn/common/ValidateHal.cpp:588-665 | accepts exactly the graphs: operations in execution order, every operand written once, consumer counts right |
| Graphs.ValidateModelInputOutputs | nn/common/ValidateHal.cpp:550-586 | accepts exactly the lists of all operands with a lifetime, each once |
| Slices.MakeSlice | nn/common/MetaModel.cpp:424-525 | for any set of noncompliant operations: makes a valid graph with inputs and outputs listed, in which every operand has the type and the data of its original; fails exactly if a compliant operation reads a model |
| Compliance.FindNoncompliant | nn/common/Utils.cpp:2511-2575 | finds exactly the operations that fail their own validation or have an operand that is not compliant |
| Compliance.CompliantByType | nn/common/Utils.cpp:2495-2550 | an operand is compliant with an older version exactly if the API level of its type is not later, it is no model, a tensor has dimensions before version 1.2, and the pool of a constant is of a kind that the version knows and has a handle |
| Compliance.CompliantExtension | nn/common/ValidateHal.cpp:951-989 | an operand of an extension type is compliant with version 1.2 of the older ones only |
| Compliance.NewestTakesAll | nn/common/Utils.cpp:2506-2536 | every operand outside unusable pools is compliant with version 1.3, and none with an unknown version |
| Compliance.NoModelIsRead | nn/common/Utils.cpp:2495-2575 | in versions 1.0 to 1.2 no compliant operation reads a model, so that a slice can be made of every model |
| Compliance.SliceIsExpressible | nn/common/MetaModel.cpp:424-525 | the version can express every operand of its slice |
| Compliance.GetSlice | nn/common/MetaModel.cpp:179-193 | for every validated model and older version a slice is made; there is none to use exactly if nothing is compliant or no output is left, and strict slicing stops exactly over operations without operands |
| Compliance.SlicedWhole | nn/common/MetaModel.cpp:179-193 | a model of version 1.0 types whose operations are valid in an older version is sliced whole for it, every operation in its place |
| Compliance.SlicedWholeHasOutputs | nn/common/MetaModel.cpp:383-419 | a model that is sliced whole keeps an output if it writes one |
| Slices.OperationsAreTheCompliantOnes | nn/common/MetaModel.cpp:337-421 | the operations of a slice are the compliant ones, in their order |
| Slices.ArgumentsKeepTheirTypes | nn/common/MetaModel.cpp:354-402 | every argument is at its position with its type |
| Slices.SharedOperands | nn/common/MetaModel.cpp:234-319 | two operands become one only if both are of one type and the one is an input of the slice |
| Slices.EdgesArePreserved | nn/common/MetaModel.cpp:337-421 | an operation of the slice reads what another writes exactly if that is so in the original |
| Slices.OutputsOfTheSlice | nn/common/MetaModel.cpp:383-419 | an operand written by a compliant operation is an output of the slice exactly if it was one, or only noncompliant operations read it |
| Slices.InputsAreRead | nn/common/MetaModel.cpp:466-500 | every input of a slice stands for operands that compliant operations read and that are inputs of the original or written by noncompliant operations |
| SliceMeanings.ConstantsAreCopied | nn/common/MetaModel.cpp:458-464 | constants and omitted operands keep type, lifetime and data |
| SliceMeanings.SliceComputes | nn/common/MetaModel.cpp:424-525 | where the arguments of the slice are the values of the operands they stand for, running the slice gives every operand that it has the value that the original gives it |
| Slices.SliceBuilder.GetIndex | nn/common/MetaModel.cpp:244-264 | an input is mapped to an operand of equal type that is there already, or to a new one |
| Slices.SliceBuilder.ProcessNoncompliant | nn/common/MetaModel.cpp:341-353 | outputs of a noncompliant operation that compliant ones read become inputs |
| Slices.SliceBuilder.ProcessCompliant | nn/common/MetaModel.cpp:354-420 | adds the operation with its operands mapped; fails exactly if an input is not mapped |
| Slices.Invalid | nn/common/MetaModel.cpp:146-177 | strict slicing stops exactly over operations without operands; otherwise a slice is unusable exactly if it has no operations or no outputs |
| Slices.StopsWithoutArguments | nn/common/MetaModel.cpp:146-155 | a slice has operations without operands exactly if some operations are compliant and none of these has an argument |
| Fallbacks.AsyncStartComputePartitioned | nn/runtime/ExecutionBuilder.cpp:497-621 | what happens is the trace of the rounds; the callback is notified once, of the status and shapes of the trace, which become the outputs exactly if they can be taken over |
| Fallbacks.Attempt | nn/runtime/ExecutionBuilder.cpp:536-612 | one step and at most one partial fallback as the trace has them, and what is decided next |
| Fallbacks.Compute | nn/runtime/ExecutionBuilder.cpp:780-871 | a second call, or one before outputs are specified, does nothing; otherwise the end is recorded and the result is that of the trace |
| Fallbacks.TraceIsRegular | nn/runtime/ExecutionBuilder.cpp:536-612 | for all rounds: a partial fallback comes only right after a step that a device failed, a full fallback only last, and after a failure nothing but a fallback |
| Fallbacks.CodeIsOfTheLast | nn/runtime/ExecutionBuilder.cpp:536-621 | the code that is reported is that of the last thing tried, or of a next() that failed with nothing failed before it |
| Fallbacks.NoFallbackUnasked | nn/runtime/ExecutionBuilder.cpp:536-612 | without permission there is no fallback |
| Fallbacks.FallbackIsTried | nn/runtime/ExecutionBuilder.cpp:582-612 | with permission no recoverable failure is reported before the CPU has been tried |
| Fallbacks.StepsAreOfTheRounds | nn/runtime/ExecutionBuilder.cpp:536-580 | the steps that run are those that next() gives, once each and in order |
| Fallbacks.StopsOnlyAtFailure | nn/runtime/ExecutionBuilder.cpp:544-551 | all steps of the plan run, unless one of them, with its partial fallback, fails |
| Fallbacks.SuccessRunsThePlan | nn/runtime/ExecutionBuilder.cpp:536-551 | success without a full fallback means that as many steps ran as the plan has before its end, each without error or with a partial fallback without error |
| Fallbacks.CleanRunSucceeds | nn/runtime/ExecutionBuilder.cpp:510-551 | a plan whose steps all succeed runs all of them, in order, and reports success |
| Fallbacks.FirstFailureDecides | nn/runtime/ExecutionBuilder.cpp:553-612 | what follows the first failure: a report at once, a partial fallback, or a full one, with the code and the shapes of each case |
| Fallbacks.NextFailureDecides | nn/runtime/ExecutionBuilder.cpp:513-526 | a next() that fails leads to a full fallback if that is allowed and no deadline has been missed, and else is reported without shapes |
| Fallbacks.SuccessIsEarned | nn/runtime/ExecutionBuilder.cpp:925-950 | the result is success exactly if the trace ends without error, its shapes can be taken over and memories are updated; outputs only get more specific |
| Fallbacks.ShapesAreSpecified | nn/runtime/ExecutionBuilder.cpp:954-976 | the shapes that a trace reports are more specific than the ones it starts with, unless a full fallback reports its own |
| Fallbacks.UpdateOutputShapes | nn/runtime/ExecutionBuilder.cpp:954-976 | shapes are taken over by position only if they are more specific |
| Fallbacks.UpdateIsExact | nn/runtime/ExecutionBuilder.cpp:954-976 | shapes of a step are taken over exactly if each is more specific than the one in its place, and then no other changes |
| Fallbacks.ExecutionBuilder.UpdateOutputs | nn/runtime/ExecutionBuilder.cpp:888-914 | reported shapes become those of the outputs exactly if there are none or as many as outputs, all more specific and none too large for its buffer |
| Fallbacks.CodesRoundTrip | nn/common/Utils.cpp:1890-1950 | a status survives the way through a result code and back, only success becomes success, and each deadline, exhaustion and size error keeps its kind |
| Fallbacks.ExecutionBuilder.FinishWithoutSyncFence | nn/runtime/ExecutionBuilder.cpp:925-950 | records the end once, as completed exactly for success and as too small exactly for insufficient size; the status is kept exactly if there are no shapes or all are more specific and none too large, and the memories are updated |
| Fallbacks.ReportedExactly | nn/runtime/Callbacks.cpp:201-229 | shapes are reported with success or insufficient size only, and insufficient size with shapes only; what does not agree becomes a general failure |
| Fallbacks.NotifiedExactly | nn/runtime/ExecutionBuilder.cpp:536-621 | the code and the shapes of a trace are notified as they are if they agree, and as a general failure without shapes otherwise |
| Fallbacks.ExecutionCallback.NotifyInternal | nn/runtime/Callbacks.cpp:202-254 | the first notification stores the status as the hook leaves it and the shapes; a later one changes nothing |
| Notifications.FinishComesFirst | nn/runtime/Callbacks.cpp:117-254 | however notifiers, waiters and the setter of the hook interleave: the hook is called at most once, and before any waiter goes on |
| Notifications.HookIsTaken | nn/runtime/Callbacks.cpp:177-199 | with the lock free, a hook is taken exactly if none was before and nobody has notified |
| Notifications.HolderIsAlone | nn/runtime/Callbacks.cpp:117-254 | while one thread holds the lock no other sets the hook, notifies or goes on |
| Notifications.WaitersGoOn | nn/runtime/Callbacks.cpp:117-254 | with the lock free, the first notifier calls the hook that was taken, later ones change nothing, and a waiter goes on exactly if someone has notified |
| ReferenceCycles.CheckNoReferenceCycles | nn/common/ValidateHal.cpp:668-691 | accepts exactly if no cycle of references can be reached from the main subgraph |
| ReferenceCycles.CheckFrom | nn/common/ValidateHal.cpp:668-685 | fails exactly if following references comes back to the path, and restores the path |
| ChannelOrders.ConvertToNhwc | nn/common/CpuExecutor.cpp:489-501 | every element of NCHW data is at its place in NHWC order |
| ChannelOrders.ConvertFromNhwc | nn/common/CpuExecutor.cpp:503-515 | every element of NHWC data is at its place in NCHW order |
| ChannelOrders.Determined | nn/common/CpuExecutor.cpp:489-515 | either order of the data determines the other |
| ChannelOrders.RoundTrip | nn/common/CpuExecutor.cpp:489-515 | converting there and back, either way round, gives the data |
| ChannelOrders.ThreeChannels | nn/common/CpuExecutor.cpp:489-501 | six elements in three channels, in both orders |
| InverseSquareRoots.Normalise | nn/common/QuantUtils.h:92-103 | the input is scaled by a power of four into the range that the iteration needs, for every input above one; neither range check fails |
| InverseSquareRoots.DefectImproves | nn/common/QuantUtils.h:119-122 | one step of the iteration turns the defect into a polynomial of it |
| InverseSquareRoots.FiveSteps | nn/common/QuantUtils.h:116-122 | five steps from one: no value is smaller than the one before or above the inverse square root, and the last comes within a defect of two to the minus 18 |
| InverseSquareRoots.GetInvSqrtQuantizedMultiplierExp | nn/common/QuantUtils.h:78-134 | rejects exactly negative inputs, saturates exactly zero and one, and for every other gives a value whose square times the normalised input is two to the 29, or up to two to the 11 less |
| IndexedShapes.IndexedShapeWrapper.constructor | nn/common/IndexedShapeWrapper.cpp:24-30 | strides are the products of the sizes behind, in 32 bits |
| IndexedShapes.IndexedShapeWrapper.NextIndexInplace | nn/common/IndexedShapeWrapper.cpp:32-55 | raises the flat position by one with carry; the last index stays and is reported; an invalid index is refused and kept |
| IndexedShapes.VisitAll | nn/common/IndexedShapeWrapper.cpp:32-55 | stepping from zero visits every index once, in the order of positions |
| IndexedShapes.IndexedShapeWrapper.IndexToFlatIndex | nn/common/IndexedShapeWrapper.cpp:57-66 | accepts exactly valid indexes and gives their row-major position |
| IndexedShapes.IndexedShapeWrapper.BroadcastedIndexToFlatIndex | nn/common/IndexedShapeWrapper.cpp:68-82 | accepts exactly indexes that broadcast to the shape and gives the position of the repeated element |
| IndexedShapes.BroadcastAgrees | nn/common/IndexedShapeWrapper.cpp:68-82 | on an index of the shape itself broadcasting changes nothing |

## Left out

- Control flow that a device takes whole is an ordinary operation of that device.
- A plan in which one device runs everything has a single step and is that device's answer.
- Executions.PartitionAndExecute: stops if the temporaries do not fit into 32 bits; the runtime goes on with a total that has wrapped around, and nothing is claimed about it then.
- Executions.PartitionAndExecute: is about known sizes only; a plan with unknown sizes is refused when it is finished.
- Layouts.WriteIsLocal: is about values of the sizes that were laid out; the controller's memory maps an offset to a value of any length.
- IndexedShapes.IndexedShapeWrapper.NextIndexInplace: reports that an index is not the last one, where the code leaves the flag as the caller set it.
- The exit of a loop reads and writes operand by operand; the model's copies have no sizes, so the size checks are not modelled.
- The nested run follows loops for a bounded number of iterations; the theorems are for every bound, and `Meanings` does without one. The loop timeout is left out.
- Timing, deadlines, priorities, sync fences, fenced execution and memory domains are left out.
- Operands of unknown size and dynamic shapes in plans are left out, as are zero-sized tensors.
- Choosing the best device for each operation, and whether a driver supports one, are inputs of the model.
- The map of temporaries that the last pass fills is built from the finished draft, not while steps are added.
- CpuExecutors.CpuExecutor.Run: that a run succeeds is shown for models in which computed values have their declared sizes, conditions are never omitted or empty and loops are passed no omitted operand; a subgraph that is called by an IF may be passed omitted operands.
- In the CPU executor copies of operand records are copies of pointers; freeing on the error path and omitted arguments of the main model are left out.
- InverseSquareRoots.GetInvSqrtQuantizedMultiplierExp: models the iteration over real numbers; rounding of fixed-point numbers, the last scaling and the reversed shift are left out.
- A burst is not torn down, and neither side dies; what reads past the end of a packet would give is an outcome of its own.
- Consumer counts are unbounded.
- The verdict of an operation's own validation is an input of the compliance test; conversions between versions change nothing.
- Packets.DeserializeRequest: reports where the code would read past the end of the packet, and says no more about that case.
- combineDimensions, extension types, compilation caching, drivers, logging and the kernels of single operations are left out.

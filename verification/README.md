# photospider-daemon: orchestration, wire codec and transport in Dafny

This project models the three parts of the daemon that are hard to get right and proves what they promise.

* **Orchestration** (`Jobs`, `Machine*`, `Answers`, `Histories`, `Outcomes`, `Records`, `Registry`, `Sessions`,
  `Refinement`). The session and job protocol is a step machine: any number of request handlers, a fixed set of workers,
  one step per critical section, and every interleaving of them. Compilation and execution are nondeterministic outcomes
  between steps. An inductive invariant holds in every state of every run (`StepKeeps`, `RunKeeps`). What a client is
  told is stated twice: request by request, with the exact condition of each answer and everything it changes
  (`Answers`), and over whole runs (`Histories`, `Outcomes`). The registry, the session table, the create reservation
  and the record are also written as classes that change their fields in place, with the source's loops. Registry and
  session methods are proved to do what one step, or the steps of one call, do; an execution and the settling of a close
  are proved to be runs of the machine (`Refinement`).
* **Codec** (`Wire`, `Utf8`, `Grammar`, `Documents`, `Results`, `Messages`, `Categories`, `Fences`, `Layout`,
  `Encoder`, `Decoder`). `Encoder` appends to a payload and `Decoder` advances an offset, as in the source. Both are
  proved against functions that say which bytes a value has and which value a prefix of some bytes has. Those decoders
  are then pinned without naming their bodies: a payload decodes to a message if and only if the message is canonical
  and the payload is its bytes, up to the order of map entries (`RequestExactly`, `ResponseExactly`,
  `ProtocolErrorExactly`). The transparency of the count fences and the UTF-8 equivalence are inductions about those
  functions.
* **Transport** (`Frames`, `Connection`, `Server*`). A socket delivers and accepts bytes in any pieces, interrupts, or
  breaks. Frame reading and writing, the handler loop and the client call are methods over it. The accept loop, the
  handlers, their peers and stopping are a second step machine, in which a read waits until something arrives, the peer
  closes, or the descriptor is shut down. `Dispatch` joins the three parts: which request starts which handler, and that
  the machine's reply comes back to the caller.

Bookkeeping fields of the orchestration machine (`owner`, `closer`, `detached`, `popped`, `removed`, `fault`) decide no
branch, and no guard beyond a reference being in range; they name who will settle a record and what happened to it.
Categories of `ErrorCode`, element types and backends are numbered by representative constants: only their order and
their being different matter.

Four promises turn out to need a condition. Each is stated over what the caller or the environment supplies and shown to
be exact, and each has an input at which the promise fails.

* A response that encodes is not always one that decodes: the encoder accepts values without axes and facet payloads
  above 64 KiB, which the decoder refuses. `Messages.ResponseRoundTrip` gives the round trip exactly for the others;
  `Counterexamples.EncodableButRefused` has one of each.
* A status snapshot is valid unless the compiler, which has no token, reports `Cancelled` for a job nobody cancelled
  (`MachineProgress.PublicationIsValid`; `Counterexamples.ForgedSnapshot` is a run to such a snapshot).
* A terminal state is written once exactly when no diagnostic allocation fails on the way the environment sets
  (`Records.WrittenOnce`); `Records.CancelledThenFailed` shows a cancelled job that then fails.
* An execution ends its record exactly unless the record lock of the fence's last attempt fails after everything before
  it failed (`Records.FenceHolds`); `Records.FenceCanBeLost` leaves a record running.

## Model

| member | source | states |
|---|---|---|
| `MachineSafety.StepKeeps` | src/lib/orchestration/service.cpp:360-1059 | every step of every handler and worker keeps the invariant: container membership, one owner per unfinished record, lock ownership, capacity and id bounds, coherent records |
| `MachineSafety.RunKeeps` | src/lib/orchestration/service.cpp:360-1059 | so every state of every run satisfies it |
| `MachineInvariant.InitialHolds` | src/lib/orchestration/service.cpp:889-904 | the empty service satisfies it |
| `MachineTheorems.SettlerIsUnique` | src/lib/orchestration/service.cpp:515-555 | a record has at most one settler: one queue position, or one worker, or one position in one close |
| `MachineTheorems.SettlerExists` | src/lib/orchestration/service.cpp:360-395 | a record has a settler exactly as long as it is not terminal |
| `MachineTheorems.SettlerOwns` | src/lib/orchestration/service.cpp:636-675 | whoever settles a record is its recorded owner, and the record is unfinished |
| `MachineTheorems.CloseWaitsOnWorker` | src/lib/orchestration/service.cpp:606-610 | a close waits only for a record that a worker holds and that was told to stop, and holds neither the lifecycle nor the registry lock |
| `MachineTheorems.NoFaults` | src/lib/orchestration/service.cpp:130-201 | over every run no terminate branch, duplicate-id branch or "left queued state" branch is taken |
| `MachineTheorems.StepEvolves` | src/lib/orchestration/service.cpp:583-742 | one step never moves a record backwards, changes a terminal record, or clears a token |
| `MachineTheorems.RunEvolves` | src/lib/orchestration/service.cpp:404-413 | over every run observed job states never go backwards and terminal records are immutable |
| `MachineTheorems.CancelledNeverSucceeds` | src/lib/orchestration/service.cpp:751-781 | once the token of an unfinished job is set, no later state has it succeeded, failed, or holding a result |
| `MachineTheorems.CancelDecides` | src/lib/orchestration/service.cpp:422-434 | `job.cancel` decides at the record lock: an ended job keeps state, outcome and result for ever, another can only end cancelled |
| `MachineTheorems.CloseDecides` | src/lib/orchestration/service.cpp:596-605 | over a whole close each popped record has a moment at which the close took its lock, and what it found then decides: ended stays, otherwise ends cancelled without result |
| `MachineTheorems.CloseEnds` | src/lib/orchestration/service.cpp:583-611 | when a close is about to succeed every record it took is terminal, the queued ones cancelled without result, and no record of the session is unfinished |
| `MachineSteps.CloseIsComplete` | src/lib/orchestration/service.cpp:583-611 | a close at its last step leaves no unfinished record of its session |
| `MachineTheorems.FinalizeCloses` | src/lib/orchestration/service.cpp:1023-1034 | the last step of a close makes the session closed |
| `MachineTheorems.ClosedStaysClosed` | src/lib/orchestration/service.cpp:983-1010 | over every later run no record of a closed session changes or appears, and the session never returns |
| `MachineTheorems.ClosedHoldsNothing` | src/lib/orchestration/service.cpp:515-555 | a closed session has nothing in the queue or the retained map |
| `MachineTheorems.TakeJobsIsolates` | src/lib/orchestration/service.cpp:526-551 | taking the jobs of a session keeps the order of all other sessions' queued records among each other, and every other session's queue, retained jobs, owners and records |
| `MachineTheorems.SettlingIsolates` | src/lib/orchestration/service.cpp:583-611 | no later step of the close touches a record of another session, the queue or the retained map |
| `MachineCompletion.SnapshotFailureReopens` | src/lib/orchestration/service.cpp:997-1007 | after a failed snapshot, whatever the others do they could have done without it, with the same effect on everything shared; the close is then still to reopen the session, and has a run that does |
| `MachineCompletion.ReopenTouchesNoJob` | src/lib/orchestration/service.cpp:1000-1005 | the reopening makes the session open again and leaves jobs, queue and records alone |
| `MachineTheorems.PopsInOrder` | src/lib/orchestration/service.cpp:636-650 | jobs are popped in strictly increasing id order, and each admitted job is in exactly one of queued, popped, removed |
| `MachineTheorems.RunExtendsPopped` | src/lib/orchestration/service.cpp:645-646 | over every run the popped jobs only grow at the end |
| `MachineTheorems.IdNamesOneRecord` | src/lib/orchestration/service.cpp:376-394 | a job id names the same record for ever, retained or not |
| `MachineTheorems.ResultsAgree` | src/lib/orchestration/service.cpp:445-468 | all reads of a succeeded result agree, although release or close may erase the job between lookup and copy |
| `MachineTheorems.ResultObservation` | src/lib/orchestration/service.cpp:455-467 | a result request answers the result exactly of a success, the failure of a failed or cancelled job, and not-ready otherwise; the "lacks failure" branch is dead |
| `MachineTheorems.SessionIdsAreSpentOnSessions` | src/lib/orchestration/service.cpp:952-969 | the session counter moves exactly when a session is published under its old value, which was unused |
| `MachineProgress.SnapshotsAreValid` | src/lib/orchestration/service.cpp:404-413 | every status snapshot of every run passes the client's check, if compilation never reports cancellation; whose snapshot it is, is `Answers.StatusAnswers` |
| `MachineProgress.PublicationIsValid` | src/lib/orchestration/service.cpp:691-695 | a publication yields a snapshot the client accepts if and only if it is not a failure claiming cancellation of a job nobody cancelled |
| `Counterexamples.ForgedSnapshot` | src/lib/orchestration/service.cpp:691-695 | a run from the empty service to a snapshot that the client refuses |
| `MachineProgress.LocksAreOrdered` | src/lib/orchestration/service.cpp:1085-1097 | the registry holder neither holds nor wants the lifecycle lock; building, snapshotting and settling hold neither |
| `MachineProgress.SectionsEnd` | src/lib/orchestration/service.cpp:479-496 | whenever one of these locks is held some thread can take a step that brings its release nearer |
| `MachineProgress.WorkerMovesOn` | src/lib/orchestration/service.cpp:663-742 | a busy worker waits for nobody and comes nearer to its publication with each step |
| `MachineProgress.SnapshotMovesOn` | src/lib/orchestration/service.cpp:542-551 | a close can always take its snapshot |
| `MachineLiveness.NoDeadlock` | src/lib/orchestration/service.cpp:479-1059 | in every reachable state with a request, a busy worker or a queued job, some thread can take a step |
| `MachineCompletion.HandlerCompletes` | src/lib/orchestration/service.cpp:360-1059 | from every reachable state every request, at whatever stage, can be run to its answer with no new request; a close ends with its session gone, not found, or, after a failed snapshot, open again; which ids are found is `Answers.CloseAnswers` |
| `MachineLiveness.CloseNeverRetreats` | src/lib/orchestration/service.cpp:583-611 | no step of anybody adds to the work a close has left: its own steps and the worker steps of the records it awaits |
| `MachineLiveness.CloseAdvances` | src/lib/orchestration/service.cpp:606-610 | until its last step a close has a step, its own or that of a worker it waits for, that leaves less work |
| `MachineLiveness.CloseCompletes` | src/lib/orchestration/service.cpp:583-611 | a close that has taken its jobs can be run to its end, and its session is then gone |
| `MachineCompletion.CloseIsBounded` | src/lib/orchestration/service.cpp:583-611 | in every run, fair or not, the steps of such a close and of the workers it waits for are at most as many as the work left, which counts the unfinished records workers hold for it |
| `Answers.AdmissionAnswers` | src/lib/orchestration/service.cpp:924-938 | `session.create` is turned away exactly when sessions and pending creations fill the maximum or no id is left; otherwise it takes one slot and changes nothing else |
| `Answers.BuildAnswers` | src/lib/orchestration/service.cpp:944-951 | a creation whose document does not compile is not published; building changes nothing that is shared |
| `Answers.PublicationAnswers` | src/lib/orchestration/service.cpp:952-969 | a creation that is ready returns the next id and makes exactly that session open, exactly unless it throws or the ids ran out; ids are consecutive |
| `Answers.RollbackAnswers` | src/lib/orchestration/service.cpp:130-140 | a creation that fails gives its slot back, spends no id and leaves every session as it was |
| `Answers.CloseAnswers` | src/lib/orchestration/service.cpp:983-996 | `session.close` of an id of another daemon, of no session, or of one being closed answers not found and has no effect; otherwise that session and no other stops being open |
| `Answers.SubmissionFinds` | src/lib/orchestration/service.cpp:1045-1057 | `job.submit` to such an id answers not found and has no effect; otherwise it goes on to exactly that session |
| `Answers.SubmissionAnswers` | src/lib/orchestration/service.cpp:360-395 | a submission is admitted exactly when fewer jobs than the maximum are retained, an id is left and nothing fails to allocate: one queued record of that session under the next id, retained and last in the queue; otherwise it is refused and no job changes |
| `Answers.LookupAnswers` | src/lib/orchestration/service.cpp:622-629 | a job is found exactly when its id is of this daemon and retained, and is then the record with that id; otherwise not found; nothing changes |
| `Answers.ReleaseFinds` | src/lib/orchestration/service.cpp:479-486 | the same for `job.release`, which then holds the registry |
| `Answers.ReleaseChecks` | src/lib/orchestration/service.cpp:487-493 | `job.release` refuses exactly the unfinished jobs, and changes nothing then |
| `Answers.ReleaseErases` | src/lib/orchestration/service.cpp:494-495 | the release of a finished job erases its entry and no other |
| `Answers.StatusAnswers` | src/lib/orchestration/service.cpp:404-413 | in every reachable state `job.status` answers a snapshot of the job that was asked for: its id, session, state and outcome; success is shown exactly when a result can be fetched; nothing changes |
| `Answers.ResultAnswers` | src/lib/orchestration/service.cpp:445-468 | `job.result` answers the result exactly of a success, the failure of a failed or cancelled job, and not ready otherwise; nothing changes |
| `Answers.CancellationAnswers` | src/lib/orchestration/service.cpp:422-434 | `job.cancel` is accepted and sets the token of that job if it has not ended, and nothing else |
| `Answers.FinalizationAnswers` | src/lib/orchestration/service.cpp:1023-1034 | the last step of a close answers success and removes its session and no other |
| `Histories.LocksExclude` | src/lib/orchestration/service.cpp:1085-1097 | while a thread is inside a lifecycle section nobody else changes a session, closing flag, slot or the session counter; while one is inside a release nobody else changes the retained jobs, the queue or the job counter |
| `Histories.CreatedIsAccepted` | src/lib/orchestration/service.cpp:952-969 | over every run, an id that a creation returned is accepted until a close marks its session |
| `Histories.FoundUntilForgotten` | src/lib/orchestration/service.cpp:479-551 | over every run, a retained job is found as the same record until it is released or its session's jobs are taken |
| `Histories.ForgottenForEver` | src/lib/orchestration/service.cpp:376-394 | over every run, an id that was handed out and is not retained is never found again |
| `Histories.SnapshotsAdvance` | src/lib/orchestration/service.cpp:404-413 | over every run, later snapshots of a job have its id and session, are never of an earlier stage, and once one shows the end all show the same |
| `Histories.QueuedUntilStarted` | src/lib/orchestration/service.cpp:663-676 | over every run, an unfinished job that was queued shows running exactly if a worker has started it since, and queued otherwise |
| `Histories.SubmittedIsSeen` | src/lib/orchestration/service.cpp:360-413 | from submission to snapshot over every run: who asks for the returned id is told that id, the session it was submitted to, and queued or running according to whether it was started |
| `Outcomes.EndIsReported` | src/lib/orchestration/service.cpp:691-742 | over every run, the end of a job nobody cancelled was reported in it for this job: a result is the one the kernel returned, a failure the compiler's, the kernel's or an exception's category, a cancellation the kernel's |
| `Outcomes.StopIsHeeded` | src/lib/orchestration/service.cpp:684-707 | over every run after a job was told to stop, its worker goes no further with the kernel: stopped before compilation it is never compiled, stopped before execution never executed |
| `Dispatch.HandlerIsFor` | src/lib/orchestration/service.cpp:1132-1190 | every method but the two daemon methods starts the handler of that method |
| `Dispatch.RequestKeepsMethod` | src/lib/orchestration/service.cpp:1132-1190 | over every run a request is worked on as what it is until it is answered |
| `Dispatch.ReplyFits` | src/lib/orchestration/service.cpp:1142-1185 | every reply is one that the method of its request can have |
| `Dispatch.RepliesAreReady` | src/lib/orchestration/service.cpp:1142-1185 | in every reachable state what is replied has legal identities and a valid snapshot, and a refusal has a failure category, so that it can be encoded |
| `Dispatch.ReplyArrives` | src/lib/orchestration/service.cpp:1132-1200 | from end to end, such a reply encodes, fits a frame, and comes back to its caller, who stays connected, as the response that carries it |
| `Records.JobRecord.Execute` | src/lib/orchestration/service.cpp:663-742 | runs a record in place to exactly what the specification of the execution says, for every environment; a fresh record whose fence is not lost ends as `Records.EndHasCause` says |
| `Records.JobRecord.FinishFailure` | src/lib/orchestration/service.cpp:751-763 | publishes a failure, or a cancellation if one was requested, with the state written before the diagnostic |
| `Records.JobRecord.FinishCancelled` | src/lib/orchestration/service.cpp:772-781 | publishes a cancellation, with the state written before the diagnostic |
| `Records.JobRecord.FinishFailureSafely` | src/lib/orchestration/service.cpp:796-817 | publishes a failure even if constructing or publishing its status throws |
| `Records.JobRecord.Cancel` | src/lib/orchestration/service.cpp:428-433 | sets the token of an unfinished record and leaves a terminal one alone |
| `Records.FenceHolds` | src/lib/orchestration/service.cpp:663-817 | with an exception possible at every throwing point, every record lock possibly failing and the token possibly set at every moment, nothing escapes, and the record ends (a result exactly if it succeeded, a failure otherwise, cancelled if the token was set) if and only if the fence is not lost |
| `Records.FenceCanBeLost` | src/lib/orchestration/service.cpp:806-816 | the fence is lost, and a record left running, if the lock of its last attempt fails too |
| `Records.WrittenOnce` | src/lib/orchestration/service.cpp:663-817 | a terminal state is written exactly once, and for good, if and only if no diagnostic that the environment leads to fails and the fence is not lost |
| `Records.PlainlyWrittenOnce` | src/lib/orchestration/service.cpp:772-781 | in particular if none of the seven diagnostics that follow a terminal state throws and the last lock can be had |
| `Records.InsideTakesCourse` | src/lib/orchestration/service.cpp:663-742 | what the protected part does, throws and leaves is told by the environment and the token alone: unless something is thrown, a stop if the token was set, else the kernel's verdict |
| `Records.EndHasCause` | src/lib/orchestration/service.cpp:663-817 | the end of every execution whose fence is not lost, exactly: cancelled if the token is set by then, else failed with the category of the exception in the protected part, else the kernel's verdict (a compiler failure, a result, a cancellation, a failure) |
| `Records.EscapesAreThrown` | src/lib/orchestration/service.cpp:733-741 | the fence files an exception as exhausted resources or as internal |
| `Records.LeftQueuedFails` | src/lib/orchestration/service.cpp:667-674 | a record that is not queued is not executed: it fails as internal, unless even that fails, and nothing escapes |
| `Records.CancelledThenFailed` | src/lib/orchestration/service.cpp:733-741 | otherwise a job can be seen cancelled and then failed |
| `Refinement.ExecutionIsRun` | src/lib/orchestration/service.cpp:663-742 | for every environment in which the fence is not lost the machine has a run of that worker, with the token set by `job.cancel` only if it is set, the kernel reporting the same and nothing thrown but what escapes, that leaves exactly the record the execution leaves |
| `Refinement.SettleIsSteps` | src/lib/orchestration/service.cpp:583-605 | the passes of a close before its wait are a run of its steps |
| `Registry.JobRegistry.Submit` | src/lib/orchestration/service.cpp:360-395 | is the machine's admission, and succeeds exactly with room, an id left, no allocation failure and no duplicate: retained and queued together, or neither, with the id possibly spent |
| `Registry.JobRegistry.Find` | src/lib/orchestration/service.cpp:622-629 | finds exactly the retained records of this instance |
| `Registry.JobRegistry.Release` | src/lib/orchestration/service.cpp:479-496 | is the machine's erase for a terminal record, and otherwise refuses and changes nothing |
| `Registry.JobRegistry.PopFront` | src/lib/orchestration/service.cpp:645-646 | is the machine's pop |
| `Registry.JobRegistry.DetachQueued` | src/lib/orchestration/service.cpp:526-535 | the first erase loop splits the queue into the session's records and the others, both in order |
| `Registry.JobRegistry.DetachFromMap` | src/lib/orchestration/service.cpp:536-541 | the second loop removes exactly those records from the map, by identity |
| `Registry.JobRegistry.DetachRunning` | src/lib/orchestration/service.cpp:542-551 | the third loop removes and lists, by ascending id, what the map still holds of the session |
| `Registry.JobRegistry.CloseSession` | src/lib/orchestration/service.cpp:515-552 | the three loops together are the machine's snapshot step |
| `Registry.JobRegistry.SettleCloseRecords` | src/lib/orchestration/service.cpp:586-605 | queued records end cancelled without result, unfinished popped ones are told to stop, all others stay |
| `Registry.InvariantGives` | src/lib/orchestration/service.cpp:524-551 | in every reachable state the registry's loops may be run |
| `Sessions.CreateSession` | src/lib/orchestration/service.cpp:920-970 | is the machine's admit, publish or roll back; every failure restores the pending count and spends no id, and it fails exactly for lack of room or id, a duplicate, an exception or the compiler's refusal, with that category |
| `Sessions.Reservation.ReserveWhileLocked` | src/lib/orchestration/service.cpp:180-186 | takes one pending slot and becomes active |
| `Sessions.Reservation.CommitWhileLocked` | src/lib/orchestration/service.cpp:195-201 | turns the slot into a session and becomes inactive |
| `Sessions.Reservation.Destroy` | src/lib/orchestration/service.cpp:130-140 | gives the slot back exactly if it is still active |
| `Utf8.Validate` | src/lib/ipc/codec.cpp:74-119 | accepts exactly the concatenations of encodings of Unicode scalar values of sections 3 and 4 of RFC 3629 |
| `Utf8.WellFormedExactly` | src/lib/ipc/codec.cpp:74-119 | well-formedness by lead byte, length, continuation, overlong, surrogate and range checks is being such a concatenation |
| `Utf8.DecompositionIsUnique` | src/lib/ipc/codec.cpp:74-119 | the decomposition into scalar values is unique |
| `Grammar.CountFitsExactly` | src/lib/ipc/codec.cpp:329-336 | the division form of the count check is the product and sum it avoids computing |
| `Grammar.CountedTransparent` | src/lib/ipc/codec.cpp:560-568 | a fence refuses a counted list only if reading it without the fence fails too |
| `Grammar.CountedMapTransparent` | src/lib/ipc/codec.cpp:560-568 | the same for a counted map |
| `Grammar.InsertExactly` | src/lib/ipc/codec.cpp:899-902 | a map refuses a key exactly when it has it |
| `Grammar.MapComplete` | src/lib/ipc/codec.cpp:885-905 | the entries of a map are read back as that map in whatever order they were written |
| `Fences.DocumentFencesAreTight` | src/lib/ipc/codec.cpp:297-304 | each document fence is the strictest transparent one: its entry size and suffix are those of a smallest legal entry and of the least that follows |
| `Fences.ValueFencesAreTight` | src/lib/ipc/codec.cpp:305-316 | the same for the fences of values, for axes of every rank |
| `Fences.DiagnosticFencesAreTight` | src/lib/ipc/codec.cpp:309-318 | the same for the fences of diagnostics and method names |
| `Documents.DocumentTransparent` | src/lib/ipc/codec.cpp:847-924 | a document is read to the same value, or refused, with and without its fences |
| `Results.ResultTransparent` | src/lib/ipc/codec.cpp:983-1246 | so is an execution result with its values, facets and diagnostics |
| `Messages.RequestTransparent` | src/lib/ipc/codec.cpp:1404-1454 | the fenced request decoder accepts exactly the payloads, with the same value, that it would accept without fences |
| `Messages.ResponseTransparent` | src/lib/ipc/codec.cpp:1532-1621 | the same for responses |
| `Documents.DocumentComplete` | src/lib/ipc/codec.cpp:797-924 | a legal document is read back unchanged from its bytes, in whatever order the parameters of its nodes were written |
| `Documents.DocumentSound` | src/lib/ipc/codec.cpp:847-924 | whatever is read is a legal document whose bytes are the ones read, up to the order of each node's parameters |
| `Results.ResultSound` | src/lib/ipc/codec.cpp:983-1246 | whatever is read is a legal result that the kernel accepts, whose bytes are the ones read, up to the order of the entries of its two maps |
| `Results.ResultComplete` | src/lib/ipc/codec.cpp:983-1246 | conversely every such form of a legal result is read as that result |
| `Messages.RequestRoundTrip` | src/lib/ipc/codec.cpp:1356-1454 | a legal request decodes to its method-selected fields |
| `Messages.RequestExactly` | src/lib/ipc/codec.cpp:1404-1454 | a payload decodes to a request if and only if it fits a frame, the request is legal with only the fields its method selects, and the payload is its bytes up to the order of each node's parameters |
| `Messages.RequestReencodes` | src/lib/ipc/codec.cpp:1404-1454 | so an accepted payload re-encodes to the same length and the same bytes up to that order |
| `Messages.ResponseRoundTrip` | src/lib/ipc/codec.cpp:1460-1621 | an encodable response decodes, under its own id and method, to its status and method-selected payload if and only if its values have an axis and their facet payloads are within 64 KiB |
| `Messages.OnlyZerosAreDropped` | src/lib/ipc/codec.cpp:936-946 | what a result loses on the wire, its storage origins, is all zeros, because other origins are not encodable |
| `Messages.ResponseExactly` | src/lib/ipc/codec.cpp:1532-1621 | under an id and a method a payload decodes to a response if and only if it fits a frame, the response has that id and method, a legal status and only the legal payload they select (an id, a coherent snapshot, a legal result that the kernel accepts, daemon information), and the payload is its bytes up to the order of map entries |
| `Messages.ResponseReencodes` | src/lib/ipc/codec.cpp:1532-1621 | so an accepted response re-encodes to the same length |
| `Layout.DigitsInOrder` | docs/codebase-structure/IPC-Protocol-v3.md:61-63 | integers are little-endian at every width |
| `Layout.RequestLayout` | docs/codebase-structure/IPC-Protocol-v3.md:82-130 | the version, request id and method stand first in every request, and each identity, the GPU flag and the parallelism stand where the protocol puts them, with nothing after them |
| `Layout.ResponseLayout` | docs/codebase-structure/IPC-Protocol-v3.md:91-130 | the same for the header, status, identities and snapshots of responses |
| `Categories.RequestCategory` | src/lib/ipc/codec.cpp:1404-1454 | a request that is refused is refused as an invalid argument |
| `Categories.ResponseCategory` | src/lib/ipc/codec.cpp:1532-1621 | a response that is refused is an invalid argument, or has the category with which the kernel refuses a value |
| `Counterexamples.EncodableButRefused` | src/lib/ipc/codec.cpp:936-1041 | a value without axes, and one with a facet payload of 64 KiB and one byte, that encode, fit a frame and are refused |
| `Messages.RecoverExactly` | src/lib/ipc/codec.cpp:1311-1331 | correlation is recovered exactly from payloads that start with a valid version 3 header |
| `Messages.RecoverFromPrefix` | src/lib/ipc/codec.cpp:1311-1331 | only the first eleven bytes matter |
| `Messages.ProtocolErrorArrives` | src/lib/ipc/codec.cpp:1627-1674 | a protocol error carries its status under the recovered correlation; correlated it is that call's failed response, as the sentinel it answers no call |
| `Messages.ProtocolErrorExactly` | src/lib/ipc/codec.cpp:1651-1674 | a payload decodes to a protocol error if and only if it is the bytes of a legal failure under the id and method of some call or under the sentinel |
| `Encoding.EncodeRequest` | src/lib/ipc/codec.cpp:1356-1398 | encodes exactly the legal requests that fit a frame, to exactly their bytes |
| `Encoding.EncodeResponse` | src/lib/ipc/codec.cpp:1460-1525 | encodes exactly the encodable responses that fit a frame, to exactly their bytes |
| `Encoding.EncodeProtocolError` | src/lib/ipc/codec.cpp:1627-1645 | encodes exactly the legal failures, to exactly their bytes |
| `Decoding.DecodeRequestPayload` | src/lib/ipc/codec.cpp:1404-1454 | the offset-advancing decoder computes the specified request or failure; what it accepts is a canonical request with those bytes |
| `Decoding.DecodeResponsePayload` | src/lib/ipc/codec.cpp:1532-1621 | the same for responses, under the id and method that were sent |
| `Decoding.DecodeProtocolErrorPayload` | src/lib/ipc/codec.cpp:1651-1674 | the same for protocol errors |
| `Frames.ReadExact` | src/lib/ipc/frame.cpp:29-56 | fills the buffer from the stream, whatever pieces arrive, or reports the end before or after the first byte |
| `Frames.ReadPayload` | src/lib/ipc/frame.cpp:69-107 | grows the payload by what arrives and keeps exactly its first eleven bytes as progress |
| `Frames.ReadFrame` | src/lib/ipc/frame.cpp:153-182 | unless the stream breaks, the result is a function of its bytes alone; the progress is always that of this frame |
| `Frames.WriteExact` | src/lib/ipc/frame.cpp:120-145 | writes everything, or a proper prefix if the stream refuses |
| `Frames.WriteFrame` | src/lib/ipc/frame.cpp:188-205 | writes exactly one frame for a legal payload, or a proper prefix of it |
| `Frames.FrameExactly` | src/lib/ipc/frame.cpp:153-205 | a stream starts with a frame if and only if it starts with the length and the bytes of a legal payload |
| `Frames.LengthsAreOrdered` | src/lib/ipc/frame.cpp:188-205 | the length is written most significant byte first |
| `Frames.FramesInOrder` | src/lib/ipc/frame.cpp:153-205 | the frames read are the frames written, in order; an end at a boundary is NotFound and a cut inside a frame InvalidArgument |
| `Frames.CutFrame` | src/lib/ipc/frame.cpp:36-44 | the same for a single frame cut anywhere |
| `Connection.ServeConnection` | src/lib/server/server.cpp:268-317 | what is sent to any stream, however it is split, interrupted or broken, is a specified sequence of replies: one response per request in order until the first bad frame, which gets one correlated error; if the stream refuses bytes, whole replies and a proper piece of the next |
| `Connection.AcceptedAll` | src/lib/server/server.cpp:295-301 | if the stream refuses no bytes, every reply that was due was sent whole |
| `Connection.AnsweredInOrder` | src/lib/server/server.cpp:268-305 | a client that sends well-formed requests gets each answered once, in order |
| `Connection.WriteProtocolFailure` | src/lib/server/server.cpp:48-75 | the full payload takes precedence over the progress, and one error frame is written, or a proper piece of it if the stream refuses |
| `Connection.CorrelationIsOwn` | src/lib/server/server.cpp:268-276 | wherever a frame is cut, its error carries its id and method exactly when all eleven header bytes had arrived and are valid, and the sentinel otherwise |
| `Connection.Client.Call` | src/lib/ipc/client.cpp:29-76 | ids are assigned in sequence until they are exhausted; a request that does not encode keeps the connection and sends nothing; once a request is legal the connection is kept exactly when the call is answered |
| `Connection.AnswerArrives` | src/lib/ipc/client.cpp:51-76 | a response reaches its caller with status and method-selected payload |
| `Connection.ErrorArrives` | src/lib/ipc/client.cpp:63-75 | a correlated error is the call's failed response; the sentinel's status is returned and the connection given up |
| `Connection.CallIsAnswered` | src/lib/ipc/client.cpp:40-76 | from end to end, an ordinary request served at any turn comes back to its caller as the service's answer |
| `Connection.AnsweredStaysConnected` | src/lib/ipc/client.cpp:51-75 | whatever the stream holds after a sent call, the client stays connected exactly if it holds an answer with the id and method of that call |
| `Connection.EndIsNoAnswer` | src/lib/ipc/client.cpp:51-62 | a stream that ends before the answer is an internal failure, one that breaks off inside it an invalid argument; both give up the connection |
| `Connection.ForeignAnswerIsRefused` | src/lib/ipc/client.cpp:63-75 | the answer to another call is refused and the connection given up |
| `Connection.MalformedIsAnswered` | src/lib/server/server.cpp:277-281 | a frame that is no request is answered once, with the decoder's category, and ends the connection; the caller whose header it carries is told that category |
| `Connection.CutIsAnswered` | src/lib/server/server.cpp:269-276 | so is a frame that breaks off, under its own id and method exactly if its header had arrived |
| `Connection.BadLengthIsAnswered` | src/lib/server/server.cpp:269-276 | a length outside bounds is answered with the sentinel whatever follows |
| `Connection.ShutdownIsLast` | src/lib/server/server.cpp:282-304 | the answer to an accepted shutdown reaches its caller and nothing after it is served |
| `Connection.OversizedIsAnswered` | src/lib/server/server.cpp:290-294 | a request whose answer does not fit a frame is told so under its id and method |
| `ServerSafety.StepKeeps` | src/lib/server/server.cpp:241-511 | every step of the accept loop, the handlers and stopping keeps the invariant: descriptor ownership, listing, slots, records |
| `ServerSafety.RunKeeps` | src/lib/server/server.cpp:241-511 | so every state of every run satisfies it |
| `ServerSafety.SweepHitsOwned` | src/lib/server/server.cpp:360-365 | the sweep shuts down only descriptors that are open and still owned by the handler that listed them |
| `ServerSafety.NobodyStartsReading` | src/lib/server/server.cpp:268-269 | once stopping has begun no handler starts a read |
| `ServerSafety.ReadersWereInterrupted` | src/lib/server/server.cpp:351-366 | after the sweep, in every later state, whoever reads was reading before and its descriptor was shut down |
| `ServerSafety.HandlersOnlyLeave` | src/lib/server/server.cpp:241-325 | once stopping has begun no step takes a handler further from its exit |
| `ServerSafety.HandlersCanLeave` | src/lib/server/server.cpp:268-325 | after the sweep every handler has a step of its own that takes it nearer to its exit, a reader because its descriptor was shut down |
| `ServerShutdown.ShutdownCompletes` | src/lib/server/server.cpp:351-384 | from every reachable state in which stop was called the server can be run, with no peer doing anything, to its end: the accept loop over, its records joined, every handler gone |
| `ServerAdmission.CapacityDecides` | src/lib/server/server.cpp:475-482 | a connection is turned away, and closed, exactly when the held slots fill the maximum |
| `ServerAdmission.ConnectionIsServed` | src/lib/server/server.cpp:457-500 | from every reachable state in which the server waits, was not told to stop and is below its maximum, a peer that connects and sends a request can be brought to a handler of its own that serves it |
| `ServerAdmission.NobodyIsAccepted` | src/lib/server/server.cpp:351-359 | over every run after the first stop closed the listener nobody is accepted |
| `ServerAdmission.ShutdownIsCalled` | src/lib/server/server.cpp:318-320 | over every run after a handler accepted a shutdown, it is about to stop the server or the server is stopping |
| `ServerAdmission.LoopFailureStops` | src/lib/server/server.cpp:469-506 | over every run after the accept loop failed for good, it is about to stop the server or the server is stopping |
| `ServerAdmission.ConnectionGoesOn` | src/lib/server/server.cpp:268-305 | after an answered request the same handler can serve the next one of its connection |
| `ServerAdmission.FailureEnds` | src/lib/server/server.cpp:250-305 | over every run a handler whose registration, read or answer failed serves nothing more |
| `ServerDescriptors.RunLosesNone` | src/lib/server/server.cpp:241-511 | over every run every open descriptor is held by the accept loop or owned by a handler that will close it |
| `ServerDescriptors.EverythingIsClosed` | src/lib/server/server.cpp:351-384 | so a stopped server can be run to an end at which no descriptor is open |
| `ServerSafety.CapacityHolds` | src/lib/server/server.cpp:457-511 | over every run handlers never exceed the maximum, the counter is the number of held slots, records never exceed the maximum plus one, and the counter never underflows |
| `ServerSafety.RunnerRecords` | src/lib/server/server.cpp:332-344 | a record that survives a reaping belongs to a handler that held a slot when the reaping began, so at most the maximum survive |
| `ServerSafety.SlotIsReleasedOnce` | src/lib/server/server.cpp:155-162 | over every run the slot of a handler is given back at most once, and never if it was given back before |
| `ServerTables.HandlerTable.ReapFinishedHandlers` | src/lib/server/server.cpp:332-344 | the erase loop keeps exactly the unfinished records, in order |
| `ServerTables.HandlerTable.Admit` | src/lib/server/server.cpp:475-506 | is the accept loop's steps for one connection; a slot and a record are kept together or not at all |
| `ServerTables.HandlerTable.Complete` | src/lib/server/server.cpp:155-162 | is the last two steps of a handler, the flag before the slot |
| `ServerTables.ConnectionTable.Sweep` | src/lib/server/server.cpp:360-365 | every listed connection is shut down and no other is touched |
| `ServerTables.ReapingIsSteps` | src/lib/server/server.cpp:332-344 | a whole reaping is a run of the accept loop's steps |
| `ServerTables.SweepIsSteps` | src/lib/server/server.cpp:360-365 | a whole sweep is a run of its steps |

## Left out

- Kernel types and calls (`Compiler`, `ExecutionContext`, `GraphContext`, `Value::create`): nondeterministic outcomes,
  or an abstract validator with the one assumption that it accepts the parts of a valid value again.
- The options of a submission, which only the kernel calls see.
- Registry `stop()`: the end of a run; it cancels without the record lock, so what is said about cancelled jobs concerns
  `job.cancel` and session close.
- Records.CancelledThenFailed: a state that is written and then written again is confined to `Records`; the steps of
  `Machine` take a publication to be one step, so `Refinement.ExecutionIsRun` matches what an execution leaves and not
  what an observer may see in between.
- Lock acquisitions that fail outside an execution (in handlers and in `settle_close_records`).
- Machine: the session and record locks are held only inside a step and are not fields; condition-variable wake-ups are
  step guards. The order in which waiting threads get the lifecycle lock is not modelled, so a close that is never given
  the lock for its last step does not finish; `CloseIsBounded` bounds everything else it does.
- Registry.JobRegistry.SettleCloseRecords: stops before the terminal wait, which needs other threads and is covered by
  the machine.
- Sessions.CreateSession: one creation without other threads in between; interleavings are covered by the machine.
- Connection.WriteProtocolFailure: writes an empty diagnostic.
- `Service::dispatch` beyond routing and replies: `daemon.info`, the fence that answers `Cancelled` once a shutdown was
  accepted, and the allocation-free failure response.
- Records of `jobs_`, `queue_` and `sessions` are references into one sequence of records, so the lifetime of shared
  pointers is not modelled; a record that was erased stays readable, as it does for whoever still owns it.
- Diagnostic texts, `method_name` and `method_inventory` beyond the required names, test-runtime hooks, and the catch
  paths of `serve_connection` whose only effect is one more error reply.
- `unix_socket.cpp`, `main.cpp`, descriptor reuse between loading the listener and accepting on it, and weak memory
  ordering.
- Floating-point parameters and values are carried as 64-bit patterns.

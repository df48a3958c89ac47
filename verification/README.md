# Verified models of the agent core

A Dafny project that models the conversation history engine of the agent runtime together with the
commit side of compaction, the permission broker, the worker registry, the tree restore, and four
smaller text and configuration cores, and proves what they keep over every input and every run.
`dafny verify dfyconfig.toml` checks all of it.

## What is modelled

* **Active view** (`History`, `ActiveView`, `ContextManager`). Committed rows are folded into a view
  in which a compaction row takes the place of the rows it names. The context manager is a class with
  the fields the engine updates; each method is tied to a value function of the old state. The fold is
  characterised without running it: which rows are left, in which order, and which private reasoning.
* **Units and selections** (`Units`, `Selection`). The unit builder runs over hash maps in arbitrary
  order (`:|`), and is proved equal to an order-free definition of units. The two source selections
  are characterised by an if-and-only-if each.
* **Projection** (`Projection`, `ProjectionLoop`, `Pairing`, `Contribution`, `Frame`, `OlderLayouts`).
  The three passes and the final sort are proved to compute one specification whatever order the maps
  are walked in. What that specification means is told by the projection alone: tool calls and results
  pair up one to one, a view may be cut between responses, each kind of row and a whole response says
  its own, and a compaction changes nothing that is kept.
* **Token baseline** (`Baseline`, `Tokens`). When provider usage may stand for known rows, which
  messages are counted on top of it, exactly when sent and later messages make up the full projection,
  and when the baseline is never used again.
* **Model compaction** (`ModelCompaction`). Accept-or-leave-unchanged over the context manager and an
  append-only log, and the stability of a source selection chosen before sampling.
* **Permission broker** (`Broker`) and **workers** (`WorkerRegistry`, `Workers`). Step relations over
  every interleaving with inductive invariants; the registry itself is a class with proved methods.
* **Quiescence wait** (`Quiescence`) and **tree restore** (`TreeRestore`).
* **Checkpoint cards** (`Checkpoint`), **terminal text** (`Terminal`), **configuration layers**
  (`Merge`), **prompt templates** (`Template`), **bounded lines** (`BoundedLine`).

The history engine assumes of its input what the stores guarantee: row ids and call ids are unique, a
call has at most one output and stands before it, and a compaction names rows appended before it
(`WellFormed`, `NamesEarlier`). "Folded" views are those no compaction row of which names a row still
in them; `RunKeepsViewSound` shows that every run keeps both.

## Findings

* A failed start signal removes the worker by path alone and expects its lease to be in the slot. If a
  hard abort took that worker between installation and signal, the `expect` breaks and a later worker
  on the same path is unregistered (`Workers.StartMayUnregisterAnother`). The `expect` breaks exactly
  when a hard abort emptied the slot first (`Workers.LaunchPanicsExactlyWhen`); the removal is fenced
  exactly when no hard abort took the worker and no other start signal failed on its path
  (`Workers.StartFailureIsFencedExactlyWhen`).
* The quiescence wait compares 64-bit generations for equality. A wakeup can be lost exactly if the
  notifications between the waiter's two reads are a positive multiple of 2^64
  (`Quiescence.LosesWakeupExactlyWhen`, `Quiescence.WrapLosesWakeup`, `Quiescence.NoLostWakeup`).

## Model

| member | source | states |
|---|---|---|
| ContextManager.ContextManager.FromActiveHistory | src/agent/context_manager.rs:85-98 | A manager built from a stored view holds those rows, that cursor and count, no private reasoning, and the digest of the rows as revision. |
| ContextManager.ContextManager.RecordContinuation | src/agent/context_manager.rs:104-110 | Only the reasoning of the one response changes. |
| ContextManager.ContextManager.RetainUnnamed | src/agent/context_manager.rs:160-168 | The retain loop keeps exactly the unnamed rows in order and forgets the reasoning of every response that loses a call. |
| ContextManager.ContextManager.IngestCommittedDelta | src/agent/context_manager.rs:119-186 | One page changes rows and reasoning as the page-wise state function says; the count grows by the rows of the page up to the machine limit, the cursor moves only if the page reports one, and the revision is the digest of the new rows. |
| ContextManager.DeltaExactly | src/agent/context_manager.rs:119-186 | The delta names exactly the steer and the agent rows of the page, in order, and tells whether a compaction was among them. |
| ContextManager.ContextManager.ModelMessagesExcluding | src/agent/context_manager.rs:363-375 | Excluding ids projects the rows that are left, in view order. |
| ContextManager.ContextManager.ModelMessagesForItems | src/agent/context_manager.rs:377-390 | Selecting ids projects those rows in view order, whatever the order of the ids. |
| ContextManager.ContextManager.ModelMessagesAfterCompaction | src/agent/context_manager.rs:678-709 | The preview equals the projection of the view with the checkpoint ingested, and the manager itself does not change. |
| ContextManager.PagesOnlyAddUp | src/agent/context_manager.rs:119-186 | Any split of the stream into pages leads to the state of one page with all rows: same view, count, revision and reasoning; the cursor is the last one reported. |
| ContextManager.SplitsAgree | src/agent/context_manager.rs:119-186 | Two splits of one stream that end at the same cursor lead to the same state. |
| ContextManager.ReasoningKeptExactly | src/agent/context_manager.rs:160-168 | Private reasoning is kept, unchanged, exactly for the responses no call of which is named by a row of the stream that comes after the call; told from the view and the stream alone, without running the fold. |
| ContextManager.PreviewIsCommit | src/agent/context_manager.rs:678-709 | The reviewed projection does not depend on the checkpoint's provisional id: it equals the projection after the same checkpoint is ingested under its own. |
| ActiveView.CheckpointPlace | src/agent/context_manager.rs:152-170 | A checkpoint leaves everything before the earliest named row untouched, stands there, and behind it only the named rows are missing. |
| ActiveView.SurvivorsExactly | src/agent/context_manager.rs:112-118 | After any stream the view holds exactly the rows that no later row names. |
| ActiveView.SurvivorsInAnchorOrder | src/agent/context_manager.rs:112-118 | Survivors stand in strictly rising order of their anchors: ordinary rows where they were appended, checkpoints at the anchor of the earliest row they took out. |
| ActiveView.FoldLeavesNothingNamed | src/agent/context_manager.rs:401-407 | The replaced-id filter removes nothing more from a folded view. |
| ActiveView.RunKeepsViewSound | src/agent/context_manager.rs:112-186 | Unique ids, paired calls and foldedness hold after any stream of committed rows. |
| Units.Collect | src/agent/context_manager.rs:525-553 | The first pass gathers calls, outputs and model rows per response exactly. |
| Units.AttachOutputs | src/agent/context_manager.rs:554-564 | The second pass adds each output to the response of its call, in order. |
| Units.ResponseUnits | src/agent/context_manager.rs:583-597 | One unit per response with rows, whatever order the map yields the responses in. |
| Units.SemanticUnits | src/agent/context_manager.rs:505-612 | The builder returns the order-free definition of units, and nothing while a response is unsettled. |
| Units.UnitsAreUnits | src/agent/context_manager.rs:505-612 | The units are exactly one per response with visible rows and one per visible input, checkpoint or error row. |
| Units.UnitsFromSorted | src/agent/context_manager.rs:610-611 | Units stand in strict history order. |
| Selection.UnitsDisjoint | src/agent/context_manager.rs:505-612 | Two different units share no row. |
| Selection.UnitsCover | src/agent/context_manager.rs:505-612 | A visible row is covered exactly if it stands alone, is a model row, or is an output whose call is visible. |
| Selection.UnitInOrder | src/agent/context_manager.rs:590-596 | The rows of a unit are visible rows in history order, and the unit stands at its first row. |
| Selection.UnitsWhole | src/agent/context_manager.rs:505-612 | Rows of one response lie in the same units. |
| Selection.UnitsAreWhole | src/agent/context_manager.rs:245-247 | Any collection of units is closed under same-response and call/output grouping, so a compaction over it never splits a response. |
| Selection.UnitsShareExactly | src/agent/context_manager.rs:505-612 | Two different visible rows share a unit exactly if they belong to one response and no visible call is open. |
| Selection.UnitsInOrder | src/agent/context_manager.rs:590-611 | Units stand in the order of their first rows, and the rows of each in history order. |
| Selection.SettledExactly | src/agent/context_manager.rs:566-581 | Units exist exactly when every visible call has its visible output. |
| Selection.ModelCompactionSource | src/agent/context_manager.rs:248-282 | The method returns the flattened units that hold no protected id. |
| Selection.ModelSelectionExactly | src/agent/context_manager.rs:248-282 | A row is selected for a model-written note iff every call is answered and the row is an untriggering message, error, anchored checkpoint, or belongs to a response other than the latest; so no user, steer, triggering input or replay checkpoint ever is. |
| Selection.ModelByKind | src/agent/context_manager.rs:248-282 | Row kind by row kind, which rows a model-written note may replace: no user turn, steer or triggering input, no replay checkpoint, and nothing of the response that wrote the last text or call. |
| Selection.AutomaticCompactionUnits | src/agent/context_manager.rs:287-325 | The backward scan protects the newest input of each kind and all replay checkpoints, and returns the units free of them. |
| Selection.AutomaticSelectionExactly | src/agent/context_manager.rs:287-325 | A visible row is selected iff all visible calls are answered and it belongs to a response, or stands alone and is neither a newest input nor a replay checkpoint. |
| Selection.AutomaticByKind | src/agent/context_manager.rs:287-325 | Row kind by row kind, which rows may be replaced: a user turn, a steer or a triggering input iff a later one of its kind follows; untriggering messages, errors and checkpoints that replay nothing; every response; none that is excluded, and none while a visible call is open. |
| Selection.NewestExactly | src/agent/context_manager.rs:296-321 | The protected input of a kind is the last row of that kind. |
| ProjectionLoop.Gather | src/agent/context_manager.rs:835-891 | The first pass finds first place, joined text and answered calls of every response. |
| ProjectionLoop.GroupPass | src/agent/context_manager.rs:893-931 | In any map order the second pass makes exactly one message per response with answered calls and names exactly the replayed calls. |
| ProjectionLoop.RowPass | src/agent/context_manager.rs:933-1062 | The third pass appends what each row says by itself, in row order. |
| ProjectionLoop.ProjectModelMessages | src/agent/context_manager.rs:814-1068 | The projection does not depend on hash-map iteration order: it is the stable key order of response and row messages. |
| ProjectionLoop.CallEntriesAreGroupCalls | src/agent/context_manager.rs:893-912 | The calls gathered for a response are the answered calls of its rows, in row order. |
| Pairing.NoOrphans | src/agent/context_manager.rs:814-1068 | For every well-formed history each projected call has exactly one projected result, behind it, and each result exactly one call, before it, with the same replayed id and tool. |
| Pairing.NoOrphansInSelection | src/agent/context_manager.rs:327-390 | The same for every selection or exclusion of rows. |
| Pairing.CallsInHistoryOrder | src/agent/context_manager.rs:893-912 | Calls inside one response message keep history order, and none of the answered ones is missing. |
| Contribution.CutProjection | src/agent/context_manager.rs:814-1068 | A view cut where no response and no call is split is projected to what the two parts are projected to, one behind the other. |
| Contribution.RowInPlace | src/agent/context_manager.rs:933-1062 | An input, checkpoint, error or state row, or the text of a response none of whose calls is answered, contributes exactly what it says by itself, in one place, and changes nothing else; where nothing is split, right behind everything the rows before it say. |
| Contribution.RowSays | src/agent/context_manager.rs:933-1062 | What each kind of row says by itself: user turns and steers their text parts line by line, with the images or a note that counts them; agent rows, errors and assistant texts their text; checkpoints their inputs in order and then the note, or their replay. |
| Contribution.ResponseSays | src/agent/context_manager.rs:835-931 | A complete response says one message with its non-empty texts line by line, its calls in order under the ids they are replayed by, and its private reasoning; then each output under the id and the tool of its call with its own status, text and metadata. |
| Frame.FoldedProjection | src/agent/context_manager.rs:814-1068 | A folded view is projected row by row in view order: the final sort moves nothing across rows. |
| Frame.CompactionFrame | src/agent/context_manager.rs:112-186 | After a checkpoint over whole units the projection is what the rows before it said in the old view, the checkpoint's messages, and what the kept rows behind it said: same content, calls, reasoning and order. |
| Frame.RenamedProjection | src/agent/context_manager.rs:814-1068 | The id of a checkpoint row is invisible in the projection. |
| OlderLayouts.ListAgreesWithView | src/agent/context_manager.rs:993-1040 | For a checkpoint of an older layout over whole units, projecting the list that still holds the replaced rows is projecting the view in which the checkpoint has taken their place. |
| Baseline.LocalMessages | src/agent/context_manager.rs:409-499 | The baseline is usable iff it is for the latest response, all known rows are active, and every unknown row can be accounted for; then the local messages are exactly what the unknown rows outside the response say in the full projection. |
| Baseline.ReusableByKind | src/agent/context_manager.rs:409-499 | When a baseline may be reused, told from the rows alone: the last text or call is its response's, every known row is there, and every unknown row is an input, an error, a state row, part of the response, or an output whose call is there. |
| Baseline.NeverReusedAfter | src/agent/context_manager.rs:409-499 | After any later compaction or response the baseline is never used again, with no reset needed, whatever is appended further. |
| Baseline.ReusedExactlyWhile | src/agent/context_manager.rs:409-499 | A usable baseline stays usable exactly as long as no appended row ends it. |
| Baseline.ReuseCoversProjection | src/agent/context_manager.rs:409-499 | A reused baseline against a full recomputation: the local rows are the tail without the response's own rows; the full projection is the one that was sent followed by what the tail says exactly if no call that was open when it was sent is answered in the tail. |
| Tokens.ActiveContextTokens.Record | src/agent/context_manager.rs:740-757 | A response without usage leaves no baseline; one with usage records its total, what the sent request held beyond its history, and the known rows. |
| Tokens.ActiveContextTokens.StatusForRequest | src/agent/context_manager.rs:713-738 | The status is the full estimate, or the provider's total plus the local messages plus what the request has grown by beyond its history since, if a baseline applies and that is more; within 32 bits. |
| ModelCompaction.Review | src/agent/model_compaction.rs:47-69 | The budget check compares the present projection with the reviewed one. |
| ModelCompaction.Apply | src/agent/model_compaction.rs:7-103 | Rejected exactly if the source is empty or partly gone, the body is refused, or the budget is not met; rejected or failed proposals leave the context unchanged, accepted ones append one checkpoint behind other writers' rows and read the next page. Applied without other writers on a caught-up context, the projection is the reviewed one. |
| ModelCompaction.ActiveExactly | src/agent/model_compaction.rs:15-22 | A source is eligible iff it is not empty and every id is that of a row of the view that no checkpoint in it replaces. |
| ModelCompaction.BodyAcceptedExactly | src/agent/compaction.rs:111-119 | A note is refused iff it is blank or contains the host's framing. |
| ModelCompaction.UsableExactly | src/agent/model_compaction.rs:47-69 | A checkpoint is usable iff it shrinks the projection and brings the request below the limit. |
| ModelCompaction.AppliedAsReviewed | src/agent/model_compaction.rs:47-69 | Ingesting a reviewed checkpoint under its own id projects to exactly what was reviewed, strictly smaller than before and within the limit. |
| ModelCompaction.CommittedAsReviewed | src/agent/model_compaction.rs:47-103 | The same through the commit and the page read back, for a context that had read the whole log. |
| ModelCompaction.StaysWhole | src/agent/context_manager.rs:245-247 | Any whole selection stays whole after any run that leaves its responses alone. |
| ModelCompaction.SelectionStays | src/agent/context_manager.rs:248-282 | A source chosen before sampling stays closed under call/output and same-response grouping after any run that extends no selected response. |
| ModelCompaction.RefusedOnceGone | src/agent/model_compaction.rs:15-22 | Once a committed compaction has named a selected row, the commit refuses the selection. |
| ModelCompaction.CommittedFrame | src/agent/model_compaction.rs:4-22 | Selection, any such run, commit: everything that is not replaced says what it said just before the commit. |
| ModelCompaction.PreservedAreAnchors | src/agent/context_manager.rs:614-676 | A model-requested compaction hands on exactly the inputs anchored by the checkpoints it replaces, in order. |
| ModelCompaction.InputsByKind | src/agent/context_manager.rs:614-676 | What each kind of replaced row hands on to its checkpoint: non-blank inputs, the anchors of a checkpoint, the protected input texts of a replay; nothing else. |
| ModelCompaction.AcceptedNoteIsUnframed | src/agent/compaction.rs:111-134 | A note the host accepts never looks like a framed card, so projecting it changes nothing. |
| Broker.AbortOwnership | src/cli/prompt.rs:232-396 | Over every interleaving a waiter of an applied or deferred abort claim returns Aborted, of a rejected one Interrupted; no other waiter is told of an abort or an approval the surface did not give. |
| Broker.AnsweredExactly | src/cli/prompt.rs:232-396 | While its control is not cancelled, a waiter returns exactly the surface's own answer, the classification of its abort, or a failure if the surface was never heard: it is never interrupted for nothing. |
| Broker.NeverApprovedLater | src/cli/prompt.rs:233-301 | Once a control is cancelled, no ticket of it still waiting or coming later is ever approved. |
| Broker.NeverAskedLater | src/cli/prompt.rs:310-315 | A ticket the surface has not been asked about when its control is cancelled is never shown to the user. |
| Broker.LateAnswerInterrupts | src/cli/prompt.rs:316-323 | A decision or an abort that comes back after the control was cancelled reaches the waiter as an interruption, and nothing is claimed for it. |
| Broker.NeverQueuedLater | src/cli/prompt.rs:158-184 | A request that comes in on a cancelled control is never queued. |
| Broker.CancellationProgresses | src/cli/prompt.rs:232-301 | An outside cancellation is never missed: a waiting ticket of a cancelled control whose abort is not in question always has a step that brings its interruption closer. |
| Broker.ClaimExactly | src/cli/prompt.rs:381-396 | How an abort claim is answered by the cell, and what it does to it: applied on an open one, deferred on a reserved one without another cause, else rejected. |
| Broker.AppliedCancels | src/cli/prompt.rs:324-367 | An applied claim has cancelled its control for good, and the wake was raised before the answer went out. |
| Broker.CauseStays | src/cli/prompt.rs:324-367 | The first writer wins: the cause of a cancelled control never changes. |
| Broker.AbortProgresses | src/cli/prompt.rs:304-367 | A claimed abort is never stuck: its waiter or the dispatcher can always take a step that brings the answer closer. |
| Broker.NoTicketForgotten | src/cli/prompt.rs:304-367 | An accepted ticket stays in the queue or in the dispatcher's hands until it is answered or the surface dies. |
| Broker.FirstInFirstOut | src/cli/prompt.rs:158-184 | While a ticket waits, every ticket accepted after it waits behind it; at most 256 wait. |
| Broker.StepKeepsInv | src/cli/prompt.rs:232-396 | Every step of dispatcher, waiters and outside cancellers keeps the broker's invariant. |
| Broker.DispatcherMoves | src/cli/prompt.rs:381-396 | The origin is up before the claim is classified and comes down only after a rejected claim. |
| WorkerRegistry.AgentWorkerRegistry.ReserveGeneration | src/app/agent_runtime.rs:804-823 | A generation is used up even if the path is taken, and nothing changes once 64 bits are exhausted. |
| WorkerRegistry.AgentWorkerRegistry.Install | src/app/agent_runtime.rs:825-856 | An installed worker is never overwritten. |
| WorkerRegistry.AgentWorkerRegistry.DetachFinished | src/app/agent_runtime.rs:858-877 | Only the worker of the given generation is removed. |
| WorkerRegistry.AgentWorkerRegistry.CaptureCancelled | src/app/agent_runtime.rs:915-934 | Captured are exactly the registered workers among the cancelled paths, with their generations. |
| WorkerRegistry.AgentWorkerRegistry.TakeCaptured | src/app/agent_runtime.rs:936-957 | Taken are exactly the captured workers still registered under their generation, each once; all others stay. |
| Workers.GenerationsNeverReused | src/app/agent_runtime.rs:804-823 | A generation seen at any moment of a run names the same launch at every later moment. |
| Workers.ReserveExactly | src/app/agent_runtime.rs:804-823 | A launch gets the next generation exactly if there is one and its path is free; either way it is used up. |
| Workers.CapturedIsSameWorker | src/app/agent_runtime.rs:915-957 | A captured worker that is still registered later is the very worker that was captured. |
| Workers.RemovalsAreFenced | src/app/agent_runtime.rs:713-726 | An entry leaves the registry only through its own worker's guard, a hard abort that captured its generation, or a failed start signal on its path; it is never overwritten. |
| Workers.AtMostOneSettlement | src/app/agent_runtime.rs:959-1034 | Over every interleaving of worker, launch failure and hard abort each lease reaches at most one settlement, and once settled or dropped nobody holds it. |
| Workers.NoLeaseForgotten | src/app/agent_runtime.rs:959-1034 | Once nothing can happen around a launch, its lease was settled or dropped, or lies in the slot of an ended worker no hard abort has taken. |
| Workers.DroppedOnlyBy | src/app/agent_runtime.rs:959-1034 | A lease is dropped only by a worker that panics with it or a hard abort that gives up waiting. |
| Workers.HardAbortSettlesAfterEnd | src/app/agent_runtime.rs:1008-1034 | A hard abort settles only after the worker's task has ended, whatever ran between joining it and settling, and the task stays ended. |
| Workers.EndedIsUnregistered | src/app/agent_runtime.rs:2441-2450 | A started worker that has ended is no longer registered, unless the runtime stopped it between its start signal and its completion guard; such an entry stays. |
| Workers.UnguardedExactly | src/app/agent_runtime.rs:2441-2450 | A worker goes without its guard exactly if the runtime stops it between its start signal and its first step. |
| Workers.LaunchPanicsExactlyWhen | src/app/agent_runtime.rs:2663-2724 | A failing launch gets its lease back unless its start signal fails after a hard abort emptied the slot, and then its `expect` breaks. |
| Workers.StartMayUnregisterAnother | src/app/agent_runtime.rs:2705-2724 | A concrete run in which the failed start signal breaks its `expect` and unregisters another worker. |
| Workers.StartFailureIsFencedExactlyWhen | src/app/agent_runtime.rs:2705-2708 | At every start signal, the worker behind it is still registered, so that a failure removes just that worker, exactly when no hard abort took it and no start signal failed on its path since it was installed. |
| Quiescence.NoLostWakeup | src/app/agent_runtime.rs:3380-3391 | A waiter blocked on a quiescent tree has been notified or is about to be, unless the 64-bit generation wrapped completely between its reads. |
| Quiescence.WrapLosesWakeup | src/runtime/agent_control.rs:2154-2168 | For every positive multiple of 2^64 a run in which that many notifications between the reads lose the wakeup. |
| Quiescence.LosesWakeupExactlyWhen | src/app/agent_runtime.rs:3380-3391 | A run with a given number of notifications between the two reads can lose the wakeup exactly if that number is a positive multiple of 2^64. |
| TreeRestore.SortByDepth | src/app/agent_runtime.rs:1470-1485 | The sort is a permutation in depth order. |
| TreeRestore.ParentComesFirst | src/app/agent_runtime.rs:1470-1485 | In the sorted order of a tree every parent stands before its children. |
| TreeRestore.RestoreChild | src/runtime/agent_control.rs:894-945 | A child is registered exactly if its parent is, its path, session and order are free, and the registry is not full. |
| TreeRestore.RestoreDurableChildren | src/app/agent_runtime.rs:1461-1562 | For any input order, restoring succeeds exactly for the edge sets that form a tree below the root, and the reachability error is raised only if some edge hangs below no path among them. |
| TreeRestore.RestorableExactly | src/app/agent_runtime.rs:1470-1562 | What makes edges a tree below the root, spelled out: fewer than 256, own root, sound, valid task names, positive orders, paths one task below the parent's, and nothing shared. |
| TreeRestore.PathsFollowParents | src/app/agent_runtime.rs:1508-1526 | On success every restored path is its parent's path joined with its task name. |
| Checkpoint.SplitFramed | src/agent/compaction.rs:401-406 | A framed card is found again whatever the body contains. |
| Checkpoint.SplitExactly | src/agent/compaction.rs:401-406 | A card is found exactly behind the last opening marker, closed at the very end, decodable, and of version 1 or 2. |
| Checkpoint.AppendRecord | src/agent/compaction.rs:223-244 | A new key is appended, an equal record accepted, a conflicting one refused. |
| Checkpoint.AppendAll | src/agent/compaction.rs:341-345 | Merging yields the first record of every key in order of appearance, or fails exactly if two records of one key differ. |
| Checkpoint.FirstsExactly | src/agent/compaction.rs:223-244 | The merged records are exactly the first occurrences, in order. |
| Checkpoint.NormalTwice | src/agent/compaction.rs:246-279 | Shortening tool-call payloads twice changes nothing more and keeps the source key. |
| Checkpoint.ProjectCheckpointSummary | src/agent/compaction.rs:335-373 | The loop computes the projection; borrowed text is unchanged. |
| Checkpoint.ProjectionIsIdempotent | src/agent/compaction.rs:335-373 | Projecting twice is projecting once, on every string. |
| Checkpoint.BodyKept | src/agent/compaction.rs:335-373 | The semantic body survives as an exact prefix. |
| Checkpoint.RewrittenExactly | src/agent/compaction.rs:346-372 | A rewritten card has version 2, distinct keys and input records only, behind the same body; without inputs the card becomes the fixed note. |
| Checkpoint.UnchangedExactly | src/agent/compaction.rs:335-373 | A framed summary keeps its text exactly if its records conflict, or its card already is the non-empty rewritten one or cannot be encoded again. |
| Checkpoint.KeptInOrder | src/agent/compaction.rs:341-355 | Kept records are first occurrences of their keys in the old card, in order. |
| Checkpoint.NoInputLost | src/agent/compaction.rs:346-355 | No input record of the old card is lost. |
| Checkpoint.ReadBackByKind | src/agent/compaction.rs:335-373 | Read back from the projected text of a card without conflict: inputs of users, steering users and triggering agents are there word for word, and nothing of tool calls and outputs. |
| Checkpoint.ShortenedExactly | src/agent/compaction.rs:246-279 | A tool call is shortened exactly if references to its file text exist and take less room. |
| Terminal.ControlStringEnd | src/cli/terminal.rs:55-66 | The loop finds the end of a control string: its first terminator, or the end of the text. |
| Terminal.OneReading | src/cli/terminal.rs:4-66 | Every byte string has exactly one reading as tokens of the grammar. |
| Terminal.SgrExactly | src/cli/terminal.rs:17-33 | A control sequence closed by `m` is one SGR token exactly if its parameters are digits, semicolons and colons. |
| Terminal.StringStartsExactly | src/cli/terminal.rs:45-53 | A control string starts exactly at the ten two-byte introducers of sections 5.4 and 5.6 of ECMA-48, operating system commands being told apart. |
| Terminal.ToolOutputDisplayText | src/cli/terminal.rs:4-43 | The result shows the one reading without its complete SGR sequences and with everything else byte for byte, is borrowed exactly if there is none, and stays valid UTF-8. |
| Terminal.Utf8Cut | src/cli/terminal.rs:26-29 | A cut beside an ASCII byte splits no character. |
| Terminal.TerminalSafe | src/cli/terminal.rs:76-95 | The result holds no unsafe character and is borrowed exactly if the input holds none. |
| Terminal.EscapedSpells | src/cli/terminal.rs:84-93 | Every unsafe character fits the four digits of its escape, and they spell its code point. |
| Terminal.SafeIsIdempotent | src/cli/terminal.rs:76-95 | Making safe text safe again changes nothing. |
| Merge.PatchCell.NormalizeProfileAlias | src/config/merge.rs:10-48 | Refused exactly for contradicting patches; an accepted patch asks for the same profile as before and carries no legacy mode. |
| Merge.SameEndpointTransitive | src/config/merge.rs:158-166 | Endpoint sameness is an equivalence, also across texts that do not parse. |
| Merge.SameEndpointExactly | src/config/merge.rs:158-166 | White space around endpoints does not matter; parsed ones compare by canonical form, others as written. |
| Merge.LayerExactly | src/config/merge.rs:85-136 | A layer that names no key keeps the key iff its endpoint, if any, is the same and its profile, if any, is the same; likewise headers; url and profile are the named ones. |
| Merge.ModelConfig.Apply | src/config/merge.rs:72-156 | A patch overwrites what it names; if it moves the connection, key and headers it does not supply are dropped. A contradicting patch is judged by its canonical profile and left at the profile its legacy modes lead to. |
| Merge.AskedIsFinal | src/config/merge.rs:72-130 | A patch leaves the profile it was judged by exactly if its canonical profile and legacy modes do not contradict each other. |
| Merge.SideChatConfig.Apply | src/config/merge.rs:168-206 | The same for the side chat, which has no headers. |
| Merge.ApproveConfig.Apply | src/config/merge.rs:214-257 | The same for the approving model. |
| Merge.ResolvedConfig.ApplyPatch | src/config/merge.rs:424-479 | One layer moves the three connections independently, the approving model starting from the patched main model; whatever base and patch hold, every legacy generation setting, the extra body among them, ends up inert. |
| Merge.KeyExactly | src/config/merge.rs:72-206 | A key reference is present iff some layer supplied it and no later layer replaced it, removed it, or named another endpoint or profile. |
| Merge.HeadersStayWithProvider | src/config/merge.rs:88-99 | All headers that are present come from one layer that supplied them for the endpoint and profile they are used with now. |
| Merge.HeadersExactly | src/config/merge.rs:88-136 | A header is present iff some layer supplied it and no later layer named headers, another endpoint or another profile. |
| Merge.CredentialsStayWithProvider | src/config/merge.rs:72-206 | Over any accepted layers, a key still held by the main model or the side chat, and any headers of the main model, were supplied for the same endpoint and profile they are used with now. |
| Merge.ApproveKeyOrigin | src/config/merge.rs:431-434 | The approving model's key comes from its own layers or was the main model's, in both cases for the same endpoint and profile. |
| Template.OneReading | src/agent/goal_steering.rs:94-115 | A template has at most one reading as literals, fields and a tail. |
| Template.RenderTemplate | src/agent/goal_steering.rs:94-115 | Rendering replaces the fields of the one reading by the first value of their name and leaves unknown fields as written. |
| Template.ValueInPlace | src/agent/goal_steering.rs:94-115 | A substituted value stands verbatim in its place: it is never scanned again. |
| Template.EscapesEachOnce | src/agent/goal_steering.rs:117-122 | The three replacements act on every character exactly once. |
| Template.EscapeRoundTrip | src/agent/goal_steering.rs:117-122 | Escaping loses nothing. |
| Template.EscapedHasNoTags | src/agent/goal_steering.rs:117-122 | Escaped text can neither open nor close a tag. |
| Template.ObjectiveInPlace | src/agent/goal_steering.rs:48-68 | In text rendered from a template's one reading, the escaped objective stands complete at every field of its name, without tags, and can be read back. |
| Template.SteeringMessage | src/agent/goal_steering.rs:38-85 | Only active and budget-limited goals have a message, each from its own template, and the objective reaches it escaped, complete and in its place. |
| Template.FieldsShow | src/agent/goal_steering.rs:48-92 | Every field of both prompts shows its own value: counters as they are, a missing budget by name, what remains never below zero. |
| BoundedLine.ReadBoundedLine | src/cli/prompt.rs:543-582 | Outcome and bytes consumed depend on the stream and the limit alone, whatever chunks the reader yields, and the next read starts right behind the newline. |
| BoundedLine.TooLongExactly | src/cli/prompt.rs:543-582 | A line is refused for its length exactly if it exceeds the limit with its newline. |
| BoundedLine.LastLineExactly | src/cli/prompt.rs:543-582 | A last line without newline is answered by the same rules, and an exhausted stream by the end. |
| BoundedLine.StdinReadLoop | src/cli/prompt.rs:516-541 | The events sent are the first ones the stream alone calls for, but for a last one reporting a failed read, and all of them unless a read fails or the receiver goes away. |
| BoundedLine.EventsByLine | src/cli/prompt.rs:516-541 | Every line is answered for itself, in order, also behind a line that was too long. |

## Left out

- ContextManager.ContextManager.IngestCommittedDelta: the revision is an abstract digest of the rows; hashing, scopes, sequence numbers and timestamps are not modelled.
- ProjectionLoop.ProjectModelMessages: wording of tool results, of rendered inter-agent text and of the note around a summary is represented by its inputs; a replayed call carries its canonical call id besides the provider id, so that pairing can be stated when provider ids repeat.
- Frame.CompactionFrame: stated over folded views; equality with a projection of the raw append-only log does not hold for nested or anchored checkpoints and is not claimed; for one checkpoint of an older layout it is proved (`OlderLayouts.ListAgreesWithView`).
- ModelCompaction.Apply: storage, admission and settlement are atomic steps with a given result; storage's own validation of the event counts as one of them. Feedback messages are not modelled.
- Tokens.ActiveContextTokens.StatusForRequest: the request is represented by the estimate of its prepared text; the per-message estimate is a parameter.
- Broker.AbortOwnership: for the bound handler that asks the requesting control; the fallback to a linked root control and the tree-level terminal router behind a control are not part of this model. A reservation may resolve to any classification, and the dispatcher may die while the surface is asked.
- Workers.AtMostOneSettlement: what a settlement writes, the body of an agent turn and the five second grace period are nondeterministic steps; a hard abort treats its captured workers independently rather than one after the other.
- TreeRestore.RestoreDurableChildren: decoding of durable status, mail and resume markers is one yes-or-no answer per edge; paths are text, and the validity of a joined path follows from the validity of its task name.
- Checkpoint.ProjectionIsIdempotent: JSON, SHA-256 and patch parsing are parameters; the codec is assumed to invert its encoding and to write one line that opens with a brace.
- Merge.ModelConfig.Apply: URL parsing is a parameter that depends on the trimmed text.
- BoundedLine.ReadBoundedLine: nothing is stated about the reader's position after a read that ends in an I/O error; decoding is a parameter.
- Template.SteeringMessage: the two prompt templates are parameters, and counters are unbounded integers.
- Stores, protocol events, the hub, sandboxing, command line parsing, rendering, title clean-up, the request timeout alias, and the other configuration sections, which would add easy members only.

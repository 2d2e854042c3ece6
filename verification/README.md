# RavenDB Go client: a verified model of its stateful core

The client hides real state behind its HTTP plumbing. This project models that state in Dafny and proves what
its operations keep, undo and agree on. `dafny verify dfyconfig.toml` checks everything.

| files | what they model |
|---|---|
| `JsonDiff`, `JsonOperation`, `JsonReport` | change detection between two JSON documents: a fast yes/no mode, a recording mode, and what its list says |
| `SessionModel`, `SessionInvariant`, `SessionSave`, `SessionReply`, `SessionTheorems`, `WriteBackForm`, `SavingTwice`, `SessionRuns`, `SessionLaws`, `SessionContents`, `SessionLoadSave` | the unit of work as a value: the list by entity, the index by id, includes, deletions, the batch of a save and the positional reply; invariants over whole runs; and what each operation makes the next save send |
| `SessionObject` | the same session as a mutable object, each method tied to the value model |
| `PatchMerging`, `PatchMeaning`, `PatchSession` | deferred patches, their argument names, their merging, and what they do to a document |
| `WhereClause`, `WhereMeaning`, `WhereRuns`, `WhereNesting`, `WhereBuilder` | the where-clause builder: calls, flat tokens, and the clause the tokens read back as |
| `NodeSelector`, `Failover` | the preferred node, the speed test, and the recursion over a cluster |
| `HttpCache` | generation stamps, ETags and 304 replies, together with the server |
| `Subscription` | read, process and acknowledge on one connection |
| `HiLo`, `Duration`, `StringArray`, `Text`, `Arithmetic`, `Wrappers` | id ranges, the duration text form, in-place removal, and what the others share |

How to read it: each stateful part has a value model (a datatype and functions), a class whose methods change
fields and loop as the Go code does and promise to agree with the value model, and lemmas about the value model.
Runs are sequences of steps; nondeterminism (map iteration order, replies, cancellation, interleaving) is a
parameter, so that a lemma holds for every choice.

## What the code does not do

Where a promise turned out not to hold, the model keeps the code as it is, a lemma shows an input, and another one
states the exact condition under which the promise holds.

- Objects stored under an id that ends in `/` or `|` share the id: a save may delete another object than the one
  marked (`SharedIdDeletesOther`; exactly when it does not: `DeleteHitsOwn`, `DeleteAllExact`).
- A document is delivered under such an id, an object is stored under it and deleted: the save deletes the document on the
  server, puts the deleted object again, and panics on the reply (`DeliverStoreDelete`, `HiddenIsPut`,
  `DeletedIsPutAgain`; exactly: `InStepExactly`, `SaveSucceedsExactly`: such a save succeeds if and only if it puts nothing
  or the index holds no entry without an object under the id of an object to be deleted).
- Assigning to a bool field of a tracked object is not noticed, so nothing is sent for it (`BoolChangeUnnoticed`,
  `BoolVerdict`, `BoolChangeNotSaved`; what is noticed, exactly: `FastDecidesSame`).
- Deleting by id a document that was delivered and never given an object is a panic (`DeliveredDeletePanics`; exactly:
  `DeleteByIDPanicsExactly`).
- Patches to one document under two spellings of its id are reordered by merging, and the document ends with another
  value (`OtherSpellingReorders`, for instance with `SpellingsExist`; exactly: `MergeExact`).
- A clause closed before it is opened passes the depth check (`DepthCheckMisses`; exactly: `NestedExactly`), and after
  `true` no operator is filled in (exactly: `TokensParse`).
- A user parameter `p1` or `$p1` is overwritten by the first where call (`UserNameOverwritten`), while a `p0` supplied
  first is safe (`FirstNameSafe`; exactly: `UserNameExact`, `BindExact`).
- The speed test never runs a second time (`NoSecondPhase`, `RunsOnce`), and with one node it overflows
  (`SingleNodeOverflows`; with more it does not: `RecordStep`).
- After status 410 a command fails even if its retry succeeds (`GoneThenSuccessFails`; exactly: `SucceedsExactly`).
- The cache serves old values if its counter wraps (`WrapServesStale`; exactly: `HitExactly`) or a bump passes a response
  that a change has made old (`BumpInFlightServesStale`; exactly: a bump is safe if and only if every response in flight
  that will be stored is still what the server has, `BumpExactly`).
- A confirmation inside a batch loses the documents before it (`ConfirmLosesDocument`; exactly: `BatchArrivesExactly`,
  `EverythingArrivesExactly`).
- The second look of the id allocator gives an id that is already taken (`SlowPathDuplicates`, `SecondLookNeverNew`), a
  range handed back stays in use (`ReturnedRangeIsUsed`), and an empty range deadlocks (exactly: `DeadlockExactly`).
- Negative durations lose whole days and milliseconds (`NegativeDayLost`, `NegativeMillisLost`; exactly: `RoundTripExact`).

## Model

| member | source | states |
|---|---|---|
| `JsonDocs.SameObjectReflexive` | json_operation.go:68-169 | the relation the diff decides is reflexive: a document never differs from its own copy |
| `JsonDocs.SameObjectComparable` | json_operation.go:29-66 | documents that are the same never meet the type-mismatch panic |
| `JsonChanges.ScalarEqual` | json_operation.go:29-66 | the scalar comparers panic exactly on incomparable values and otherwise decide sameness |
| `JsonChanges.FastDecidesSame` | json_operation.go:68-255 | the fast mode answers "unchanged" exactly if no old key is missing, new keys are ignored names and common fields match recursively |
| `JsonChanges.ReportDecidesSame` | json_operation.go:68-255 | the recording mode panics exactly on incomparable documents, and its list is empty exactly if the documents are the same |
| `JsonChanges.ModesAgree` | json_operation.go:68-255 | on documents without a panic the fast mode answers true exactly if the recording mode records something |
| `JsonChanges.BoolChangeUnnoticed` | json_operation.go:116-117 | a document that differs from another in a bool only compares as unchanged |
| `JsonReports.ReportExactly` | json_operation.go:68-255 | the list of the recording mode, exactly: one change for each place where the documents differ, with the new and the old value there and the kind that fits, no place twice, removed names first, then names in sorted order and positions in order |
| `JsonDocs.IgnoredExactly` | json_operation.go:82-88 | the four names that are not compared |
| `JsonOperation.EntityChanged` | json_operation.go:8-27 | both modes of the entry point: verdict, untouched map in the fast mode, and the full list under the document id in the recording mode |
| `JsonOperation.CompareObject` | json_operation.go:68-169 | the recursion over fields returns the fast verdict or appends exactly the report and writes it under the id |
| `JsonOperation.RecordRemoved` | json_operation.go:74-79 | the loop over removed names stops at the first one in the fast mode and records all otherwise |
| `JsonOperation.CompareFields` | json_operation.go:81-158 | the loop over field names |
| `JsonOperation.CompareField` | json_operation.go:81-158 | one field, by the type of its new value; the result for bools is dropped |
| `JsonOperation.CompareArray` | json_operation.go:176-255 | arrays: the fast mode compares lengths first, the recording mode records added and removed values |
| `JsonOperation.CompareCommon` | json_operation.go:176-255 | the loop over common positions visits every one, even after a difference |
| `JsonOperation.RecordTail` | json_operation.go:176-255 | the two loops over positions only one array has |
| `JsonOperation.CompareElement` | json_operation.go:176-255 | one array element: scalars by printed form |
| `Text.SortedKeys` | json_operation.go:267-282 | the keys of a map in sorted order, whatever order the map is walked in |
| `Text.LessIsLexicographic` | json_operation.go:280 | the order of sorted names is the order of strings |
| `Text.EqualFoldExactly` | documents_by_id.go:19 | ids are compared without the case of A to Z |
| `StringArray.SwapRemoveExact` | string_array.go:95-110 | swap-removal at increasing positions loses those positions and nothing else, as multisets |
| `StringArray.RemoveAtIndexes` | string_array.go:95-110 | the in-place loop computes swap-removal |
| `StringArray.RemoveWhereKeeps` | string_array.go:8-40 | removal by predicate removes every match and keeps every other string as often as it was there |
| `StringArray.RemoveMatching` | string_array.go:8-40 | the in-place collect-then-remove loop |
| `StringArray.DedupeExact` | string_array.go:113-153 | one representative per (case-folded) string, taken from the input |
| `StringArray.RemoveDuplicates` | string_array.go:113-153 | the in-place dedupe on the array that the sort leaves |
| `StringArray.Subtract` | string_array.go:50-73 | exactly the strings of the first list that the second lacks, each once |
| `StringArray.MissingIsASet` | in_memory_document_session_operations.go:503-552 | over any run of deletes and stores the list of known-missing ids answers as a case-insensitive set |
| `SessionInvariant.StoreKeeps` | in_memory_document_session_operations.go:663-757 | a store keeps the index invariant, on its error paths too |
| `SessionInvariant.TrackEntityKeeps` | in_memory_document_session_operations.go:406-484 | tracking a loaded document keeps it |
| `SessionInvariant.GetDocumentKeeps` | load_operation.go:84-107 | loading by id keeps it |
| `SessionInvariant.DeleteKeeps` | in_memory_document_session_operations.go:503-518 | marking for deletion keeps it |
| `SessionInvariant.DeleteByIDKeeps` | in_memory_document_session_operations.go:522-552 | deleting by id keeps it |
| `SessionInvariant.EvictKeeps` | in_memory_document_session_operations.go:1046-1059 | evicting keeps it |
| `SessionInvariant.ReceiveKeeps` | load_operation.go:149-167 | a delivered document never displaces an indexed entry |
| `SessionInvariant.IncludeKeeps` | in_memory_document_session_operations.go:1115-1135 | an included document leaves list and index alone |
| `SessionSave.DeleteAllExact` | in_memory_document_session_operations.go:813-873 | the delete loop has its closed form (one entity and one DELETE for each tracked object of the set, each entry leaving list and index) exactly if the index returns every deleted object under its id |
| `SessionSave.OrdinaryIsReturned` | in_memory_document_session_operations.go:746-757 | as it does for every ordinary id |
| `SessionSave.DeleteAllDone` | in_memory_document_session_operations.go:813-873 | for any ids at all: the loop keeps the index invariant, changes only list, index and deleted set, and appends at most one entity per DELETE |
| `SessionSave.DropAllKeeps` | in_memory_document_session_operations.go:813-873 | after it exactly the other objects are tracked, each with its old entry |
| `SessionSave.DeleteHitsOwn` | in_memory_document_session_operations.go:813-873 | one turn deletes the object it was given exactly if the index returns that object's entry, as it does for ordinary ids |
| `SessionSave.SharedIdDeletesOther` | in_memory_document_session_operations.go:746-750 | two objects under one id that is not ordinary: the save deletes the wrong one |
| `SessionSave.PutAllEffect` | in_memory_document_session_operations.go:875-941 | the put loop in closed form: exactly the changed entries get a PUT, their new document, and leave the index |
| `SessionReply.PrepareEffect` | in_memory_document_session_operations.go:759-785 | both loops in closed form, under the exact condition of the delete loop |
| `SessionTheorems.PlanExists` | in_memory_document_session_operations.go:759-785 | for any ids: the batch is what the delete loop left followed by one PUT for each changed entry |
| `SessionReply.SetPutsInv` | batch_operation.go:37-86 | writing the reply back restores the index invariant |
| `SessionTheorems.CommandOwner` | in_memory_document_session_operations.go:813-941 | if the index returns the deleted objects, the i-th entity is the object of the i-th command, and all DELETEs precede all PUTs |
| `SessionTheorems.BatchIdsDistinct` | in_memory_document_session_operations.go:813-941 | no ordinary id occurs twice in a batch, ignoring case |
| `SessionTheorems.SaveKeepsInv` | batch_operation.go:37-86 | a faithful reply is written back without error, each PUT to the entry whose command sits at its position, and the invariant holds again |
| `SessionTheorems.WrittenExactly` | batch_operation.go:41-83 | a faithful reply is written back exactly if the PUTs stand at the same positions in both lists; otherwise it panics |
| `SessionTheorems.InStepExactly` | in_memory_document_session_operations.go:829-868 | stated on the session: they do exactly if nothing is put or, for every tracked object to be deleted, the index holds under its id nothing or an entry with an object |
| `SessionRuns.SaveSucceedsExactly` | document_session.go:84-103 | so a prepared save that is answered faithfully within the request limit succeeds exactly under that condition, and panics otherwise |
| `WriteBackForm.SetPutsAt` | batch_operation.go:56-77 | the entry of each PUT gets id, change vector, metadata and document of its own reply |
| `WriteBackForm.SetPutsFrame` | batch_operation.go:41-83 | no other entry changes |
| `SessionContents.CommandSends` | in_memory_document_session_operations.go:813-941 | what each command of a batch carries: a DELETE the change vector under optimistic concurrency, a PUT the object's present fields without its ID, its entry's metadata and collection, and the change vector its concurrency check asks for |
| `SessionContents.PutsExactly` | in_memory_document_session_operations.go:875-888 | an object that is not deleted is put exactly if it compares as changed |
| `SessionContents.DeletesExactly` | in_memory_document_session_operations.go:813-868 | exactly the tracked objects of the deleted set are deleted |
| `SessionContents.PrepareReadyExactly` | in_memory_document_session_operations.go:829-896 | a save can be prepared exactly if nothing is deferred for an object to be deleted or a changed one, and no comparison panics |
| `SessionContents.ConvertsUnique` | entity_to_json.go:28-40 | the fields, metadata and collection determine the document |
| `LoadAndSave.ReceivedThenLoaded` | document_info.go:70-99 | a delivered document that is loaded: its object's entry has the id, change vector, metadata and document delivered, and its changes count |
| `LoadAndSave.IncludedThenLoaded` | in_memory_document_session_operations.go:437-462 | the same for an included document |
| `LoadAndSave.QueriedIsTracked` | in_memory_document_session_operations.go:464-484 | the same for a query result that is new to the session; without a change vector it is refused |
| `LoadAndSave.LoadModifySave` | in_memory_document_session_operations.go:875-941 | load, assign, save: the object is put, under its id and with the document it converts to, exactly if that differs from the document loaded |
| `LoadAndSave.IgnoredIsNotPut` | in_memory_document_session_operations.go:876-879 | an object whose changes are ignored is never put |
| `LoadAndSave.StoreRefusedExactly` | in_memory_document_session_operations.go:689-711 | when a new object is refused, with which error, in which order |
| `LoadAndSave.OrdinaryExactly` | in_memory_document_session_operations.go:746-750 | the ids that the uniqueness check is about |
| `LoadAndSave.StoredEntry` | in_memory_document_session_operations.go:726-744 | the entry and the ID of a stored object |
| `LoadAndSave.StoreThenSave` | in_memory_document_session_operations.go:726-941 | a stored object is put by the next save, with its fields |
| `LoadAndSave.RestoredEntry` | in_memory_document_session_operations.go:663-671 | a second store sets the concurrency check and the change vector given, and nothing else |
| `LoadAndSave.DeleteRefusedExactly` | in_memory_document_session_operations.go:503-518 | only tracked objects can be deleted |
| `LoadAndSave.DeleteThenSave` | in_memory_document_session_operations.go:503-868 | a deleted object is deleted by the next save |
| `LoadAndSave.DeferredDelete` | in_memory_document_session_operations.go:544-552 | the DELETE that a deletion by id defers, and the vector it checks |
| `LoadAndSave.DeleteByIDRefusedExactly` | in_memory_document_session_operations.go:522-536 | an empty id and a changed object are refused |
| `LoadAndSave.DeferredBlocks` | in_memory_document_session_operations.go:1071-1090 | which operations on its id a deferred command blocks |
| `LoadAndSave.RequestCounted` | batch_operation.go:16-35 | one request if there is anything to send, and an error before anything is sent beyond the limit |
| `LoadAndSave.SavedAsAnswered` | batch_operation.go:56-79 | the entry and the object of each PUT say afterwards what the reply at its position says |
| `LoadAndSave.GoodPutExactly` | batch_operation.go:56-63 | what the reply to a PUT must hold |
| `LoadAndSave.BadRepliesRefused` | batch_operation.go:37-63 | empty replies, nil results, PUTs without id or change vector, and replies that are too short |
| `SavingTwice.PutsLeaveUnchanged` | in_memory_document_session_operations.go:875-941 | after the put loop every tracked entry compares as unchanged |
| `SavingTwice.ReplyKeepsUnchanged` | batch_operation.go:63-77 | writing a reply to an unchanged entry leaves it unchanged, whatever the reply says |
| `SavingTwice.SaveThenSave` | in_memory_document_session_operations.go:759-941 | saving twice: after any save that succeeds, whatever ids it deleted and whatever the server answered, the next one prepares no command, sends no request and changes nothing |
| `SavingTwice.BoolVerdict` | in_memory_document_session_operations.go:886-888 | an unchanged object is still not put after one of its bool fields is assigned to |
| `SavingTwice.BoolChangeNotSaved` | in_memory_document_session_operations.go:875-941 | with nothing else pending the whole save sends nothing for it |
| `SessionRuns.StepKeepsInv` | in_memory_document_session_operations.go:307-330 | every operation keeps the index invariant |
| `SessionRuns.RunKeepsInv` | in_memory_document_session_operations.go:406-484 | in every state a run reaches, whatever ids it deletes: one entry per entity, entries under the lower-cased form of their id, tracked ordinary entries indexed |
| `SessionRuns.ReachableBatchAligned` | in_memory_document_session_operations.go:813-941 | in every reachable state a batch whose deleted objects the index returns is aligned, DELETEs first, without a repeated ordinary id |
| `SessionRuns.LoadGivesHeld` | load_operation.go:84-107 | a load or a query result with a held id in any letter case gives the same object, or an error that changes nothing if the caller's variable has another type |
| `SessionRuns.IdentityMap` | documents_by_id.go:18-31 | between evictions and deletions every load gives the same object, whatever server and includes deliver and whatever saves delete |
| `SessionLaws.StoreThenLoad` | in_memory_document_session_operations.go:663-744 | an object stored under an ordinary id is given by every load of the id, even if the id was known as missing |
| `SessionLaws.StoreTwiceIsRefused` | in_memory_document_session_operations.go:746-757 | another object is refused under a held id, in any letter case |
| `SessionLaws.LoadThenLoad` | load_operation.go:84-107 | a document that was loaded is held from then on |
| `SessionLaws.DeleteThenLoad` | in_memory_document_session_operations.go:503-518 | after a deletion the id gives nothing, in any letter case |
| `SessionLaws.DeleteByIDThenLoad` | in_memory_document_session_operations.go:522-552 | after a deletion by id the id gives nothing, the index is cleared, and the DELETE is the last deferred command |
| `SessionLaws.StoreAfterDeleteByID` | in_memory_document_session_operations.go:689-692 | a store under that id is refused as long as the deletion is deferred |
| `SessionLaws.DeleteByIDPanicsExactly` | in_memory_document_session_operations.go:529-531 | deleting by id panics exactly if the comparison does or the entry has metadata and no object |
| `SessionLaws.DeliveredDeletePanics` | entity_to_json.go:28-40 | a delivered document whose decoding failed: deleting it by id panics |
| `SessionLaws.DeliverStoreDelete` | in_memory_document_session_operations.go:746-757 | from a new session on: a delivered document, an object stored under its id and deleted leave the index with an entry without an object under that id |
| `SessionLaws.HiddenIsPut` | in_memory_document_session_operations.go:813-941 | the save of that session: a DELETE, a PUT of the object just deleted, and one entity for two commands |
| `SessionLaws.DeletedIsPutAgain` | batch_operation.go:50 | and every faithful reply to it is a panic |
| `SessionModel.DeferInternal` | in_memory_document_session_operations.go:1078-1090 | the two or three keys a deferred command takes |
| `SessionLaws.EvictForgets` | in_memory_document_session_operations.go:1046-1059 | an evicted object is neither tracked, indexed nor marked for deletion |
| `SessionObject.InMemorySession.Lookup` | in_memory_document_session_operations.go:297-304 | the loop finds the first entry of the entity |
| `SessionObject.InMemorySession.SetDocumentInfo` | in_memory_document_session_operations.go:307-317 | adds, or replaces the entry of the same entity |
| `SessionObject.InMemorySession.DeleteDocumentInfo` | in_memory_document_session_operations.go:320-330 | removes the first entry of the entity |
| `SessionObject.InMemorySession.IndexAdd` | documents_by_id.go:23-31 | adding never overwrites |
| `SessionObject.InMemorySession.DeferCommand` | in_memory_document_session_operations.go:1071-1090 | the list and up to three keys of the map |
| `SessionObject.InMemorySession.StoreInternal` | in_memory_document_session_operations.go:663-724 | agrees with the store of the value model, errors included, and keeps the index invariant |
| `SessionObject.InMemorySession.StoreEntityInUnitOfWork` | in_memory_document_session_operations.go:726-744 | the new entry, the deleted set and the known-missing ids |
| `SessionObject.InMemorySession.TrackLoaded` | in_memory_document_session_operations.go:406-484 | agrees with tracking in the value model, returns its object, and keeps the index invariant if a decoded object is new |
| `SessionObject.InMemorySession.TrackKnown` | in_memory_document_session_operations.go:411-459 | the two branches that find an entry |
| `SessionObject.InMemorySession.GetDocumentWithID` | load_operation.go:84-107 | agrees with the load of the value model, and keeps the index invariant if a decoded object is new |
| `SessionObject.InMemorySession.IsKnownMissing` | string_array.go:86-93 | the loop decides membership without letter case |
| `SessionObject.InMemorySession.IsLoadedOrDeleted` | in_memory_document_session_operations.go:359-370 | the session can answer for the id itself |
| `SessionObject.InMemorySession.ByIds` | load_operation.go:40-78 | no two ids asked for differ only in case, none is known, and every id has a spelling known or asked for |
| `SessionObject.InMemorySession.SetLoadResult` | load_operation.go:149-167 | includes first, then each document added to the index; registering missing includes does nothing; the index invariant is kept |
| `SessionObject.ReceiveAllIndexes` | load_operation.go:149-167 | each delivered document whose id is free is indexed with its contents |
| `SessionObject.IncludeAllKeepsEach` | in_memory_document_session_operations.go:1115-1135 | each included document is found under its id, with its contents |
| `SessionObject.InMemorySession.RegisterIncludes` | in_memory_document_session_operations.go:1115-1135 | the loop over includes |
| `SessionObject.InMemorySession.DeleteEntity` | in_memory_document_session_operations.go:503-518 | agrees with the value model and keeps the index invariant |
| `SessionObject.InMemorySession.DeleteById` | in_memory_document_session_operations.go:522-552 | agrees with the value model and keeps the index invariant; a changed object is refused |
| `SessionObject.InMemorySession.EvictEntity` | in_memory_document_session_operations.go:1046-1059 | agrees with the value model and keeps the index invariant |
| `SessionObject.InMemorySession.DeletionTurn` | in_memory_document_session_operations.go:813-873 | one turn of the delete loop |
| `SessionObject.InMemorySession.PrepareForEntitiesDeletion` | in_memory_document_session_operations.go:813-873 | the loop over the deleted set, in any order |
| `SessionObject.InMemorySession.PutTurn` | in_memory_document_session_operations.go:875-941 | one turn of the put loop |
| `SessionObject.InMemorySession.PrepareForEntitiesPuts` | in_memory_document_session_operations.go:875-941 | the loop over the list by entity |
| `SessionObject.InMemorySession.PrepareForSaveChanges` | in_memory_document_session_operations.go:759-785 | both loops, with the deferred commands taken out first |
| `SessionObject.InMemorySession.CreateBatch` | batch_operation.go:16-35 | nothing to send, or one more request within the limit, with the session's commands before the deferred ones |
| `SessionObject.InMemorySession.SetResultTurn` | batch_operation.go:41-83 | one reply: errors, panics and the write-back |
| `SessionObject.InMemorySession.WritePut` | batch_operation.go:56-79 | one PUT written to its entry, the index and the object |
| `SessionObject.InMemorySession.WriteResult` | batch_operation.go:37-86 | the loop over the session commands |
| `SessionObject.InMemorySession.Save` | document_session.go:84-103 | the whole save agrees with the value model, and keeps the index invariant if it succeeds and is answered faithfully |
| `PatchMerging.ArrayNamesDiffer` | java_script_array.go:53-57 | argument names of array patches determine counter and suffix |
| `PatchMerging.ValueAndArrayNamesDiffer` | document_session.go:557-566 | names of the two kinds never coincide |
| `PatchMerging.MergedEffects` | document_session.go:692-698 | with disjoint names the united values give every line of both scripts its own value |
| `PatchMerging.RemovalFinds` | document_session.go:667-678 | the removal from the deferred list always finds its element, and no other |
| `PatchMerging.StepInv` | document_session.go:544-707 | no call panics, and all argument names stay pairwise distinct |
| `PatchMerging.RunInv` | document_session.go:544-707 | the same over any run of calls |
| `PatchMerging.MergeExact` | document_session.go:680-707 | a merge leaves what happens to every document unchanged exactly if no other command on that document follows the earlier patch |
| `PatchMerging.RunMeaning` | document_session.go:544-707 | over runs without such a command the deferred list does what the calls do one after the other |
| `PatchMerging.MergingPreservesMeaning` | document_session.go:544-707 | the same from a new session on |
| `PatchMerging.OtherSpellingReorders` | document_session.go:680-707 | any two spellings of one id: after merging the document ends with the first value, without it with the second |
| `PatchMeaning.CallCarries` | document_session.go:544-665 | what one call does, stated on the call: one increment or assignment of its value, or one push or removal per argument of its array calls, in order |
| `PatchMeaning.RunDoes` | document_session.go:544-707 | over clean runs the deferred commands leave every document as the calls would, each made at once |
| `PatchMeaning.IncrementsAddUp` | document_session.go:561-575 | after any number of increments the field holds the sum |
| `PatchMeaning.LastAssignmentCounts` | document_session.go:594-619 | after any number of assignments the field holds the last value |
| `PatchMeaning.AddedAreAppended` | java_script_array.go:29-40 | values added to an array end up behind it, in order |
| `PatchMeaning.RemovedIsGone` | java_script_array.go:43-51 | the element at the position is removed |
| `PatchMeaning.NamesInScript` | document_session.go:557-566 | the argument names as a script has them |
| `PatchMeaning.RefusedCalls` | document_session.go:544-554 | empty ids and paths and nil values are refused |
| `PatchSession.JavaScriptArray.NextArgumentName` | java_script_array.go:53-57 | the name, and the counter moved on |
| `PatchSession.JavaScriptArray.AddAll` | java_script_array.go:29-40 | one line and one value per argument |
| `PatchSession.JavaScriptArray.RemoveAtIndex` | java_script_array.go:43-51 | one splice line and its index |
| `PatchSession.DocumentSession.RemoveDeferred` | document_session.go:667-678 | the search loop and the removal in place |
| `PatchSession.DocumentSession.TryMergePatches` | document_session.go:680-707 | merges exactly if the map has a patch for the id |
| `PatchSession.DocumentSession.IncrementByID` | document_session.go:544-575 | agrees with the model, refuses empty arguments and keeps the invariant |
| `PatchSession.DocumentSession.PatchByID` | document_session.go:594-619 | the same for assignments |
| `PatchSession.DocumentSession.PatchArrayByID` | document_session.go:641-665 | the same for array patches |
| `WhereClause.BindExact` | abstract_document_query.go:1674-1678 | where calls never overwrite a binding exactly if the names to come are free |
| `WhereClause.UserNameExact` | abstract_document_query.go:223-231 | a user's name keeps them free exactly if it is not `p<n>`, after taking off a dollar sign, with `n` above the number of parameters |
| `WhereClause.ParametersStay` | abstract_document_query.go:1674-1678 | no binding is lost over any run of calls if users supply such names |
| `WhereClause.WhereStaysBound` | abstract_document_query.go:1674-1678 | each parameter a token names stays bound to its value |
| `WhereClause.UserNameOverwritten` | abstract_document_query.go:223-231 | a user's `p1` or `$p1` is overwritten by the first where call |
| `WhereClause.FirstNameSafe` | abstract_document_query.go:1674-1678 | a `p0` supplied first is never overwritten |
| `WhereClause.OperatorsStandApart` | abstract_document_query.go:932-973 | over any run no operator comes first and no two operators meet |
| `WhereMeaning.ReadBackPrinted` | abstract_document_query.go:1517-1559 | tokens of a clause read back as that clause, and as nothing if an operator is missing |
| `WhereMeaning.RunClause` | abstract_document_query.go:404-437 | running the calls of any clause appends the tokens of its normal form: equalities absorb `not`, operators are filled in |
| `WhereMeaning.RunOperator` | abstract_document_query.go:1517-1559 | between two operands stands the operator given, the default, or OR after a search |
| `WhereRuns.TokensParse` | abstract_document_query.go:1517-1559 | the tokens of a run, with users' parameters anywhere in it, parse exactly if every `true` followed by an operand has its operator |
| `WhereRuns.TokensReadBack` | abstract_document_query.go:404-573 | the clause read back has the truth value of the clause the calls describe, with users' parameters anywhere in the run and after it |
| `WhereNesting.DepthCounts` | abstract_document_query.go:1175-1182 | the depth is the number of opened minus closed subclauses |
| `WhereNesting.NestedExactly` | abstract_document_query.go:404-437 | the subclauses of a run are properly nested exactly if its final depth is zero and no prefix of the run has a negative depth |
| `WhereNesting.DepthCheckMisses` | abstract_document_query.go:1175-1182 | closing before opening passes the check and does not parse |
| `WhereBuilder.AbstractDocumentQuery.AppendOperatorIfNeeded` | abstract_document_query.go:1517-1559 | the loop back to the last where token |
| `WhereBuilder.AbstractDocumentQuery.NegateNext` | abstract_document_query.go:575-577 | a second `not` takes the first one back |
| `WhereBuilder.AbstractDocumentQuery.NegateIfNeeded` | abstract_document_query.go:1580-1616 | whatever is appended first, only `not` remains |
| `WhereBuilder.AbstractDocumentQuery.WhereExists` | abstract_document_query.go:1277-1301 | agrees with the model |
| `WhereBuilder.AbstractDocumentQuery.WhereTrue` | abstract_document_query.go:327-345 | agrees with the model |
| `WhereBuilder.AbstractDocumentQuery.AndAlso` | abstract_document_query.go:932-952 | agrees with the model, and refuses a second operator |
| `WhereBuilder.AbstractDocumentQuery.OrElse` | abstract_document_query.go:954-973 | the same for OR |
| `WhereBuilder.AbstractDocumentQuery.OpenSubclause` | abstract_document_query.go:404-424 | operator, negation, token and depth |
| `WhereBuilder.AbstractDocumentQuery.CloseSubclause` | abstract_document_query.go:426-437 | depth and token |
| `WhereBuilder.AbstractDocumentQuery.AddQueryParameter` | abstract_document_query.go:1674-1678 | the name is the number of parameters |
| `WhereBuilder.AbstractDocumentQuery.AddParameter` | abstract_document_query.go:223-231 | takes a dollar sign off and refuses a name that is taken |
| `WhereBuilder.AbstractDocumentQuery.WhereEquals` | abstract_document_query.go:471-504 | hands a pending negation to its opposite |
| `WhereBuilder.AbstractDocumentQuery.WhereNotEquals` | abstract_document_query.go:542-573 | the same, the other way |
| `WhereBuilder.AbstractDocumentQuery.WhereOther` | abstract_document_query.go:606-632 | operator, negation, parameters and token, in this order |
| `NodeSelection.SpeedTestBound` | node_selector.go:123-201 | with two nodes or more the phase ends within 9n + 1 recordings, in favour of a node with exactly ten wins while all others have at most nine |
| `NodeSelection.RecordStep` | node_selector.go:141-169 | a recording goes on or lets its node win; the overflow branch is not reached first |
| `NodeSelection.NoSecondPhase` | node_selector.go:123-135 | after a win no run of switches and reports changes anything |
| `NodeSelection.RunsOnce` | node_selector.go:123-201 | over any run from mode 0 on the test is not begun, running, or decided for good with exactly ten wins |
| `NodeSelection.SingleNodeOverflows` | node_selector.go:158-169 | with one node the ninth recording overflows |
| `NodeSelection.MaxIndex` | node_selector.go:171-186 | the first position of the greatest count |
| `NodeSelection.Preferred` | node_selector.go:51-72 | the first healthy node, or the first node if none is healthy |
| `NodeSelection.NodeSelector.OnFailedRequest` | node_selector.go:25-32 | one counter moves, if the index is valid |
| `NodeSelection.NodeSelector.GetPreferredNode` | node_selector.go:51-72 | the loop finds the preferred node |
| `NodeSelection.NodeSelector.GetNodeBySessionID` | node_selector.go:74-91 | the first healthy member in cyclic order from the session's position |
| `NodeSelection.NodeSelector.SwitchToSpeedTestPhase` | node_selector.go:123-135 | only from mode 0, with all records cleared |
| `NodeSelection.NodeSelector.FindMaxIndex` | node_selector.go:171-186 | the loop finds the first greatest count |
| `NodeSelection.NodeSelector.RecordFastest` | node_selector.go:141-169 | agrees with the model; a node that moved is ignored |
| `Failover.AttemptBound` | request_executor.go:1115-1151 | at most n + 1 attempts on n nodes, at most n without a refresh when it starts on a node of the topology |
| `Failover.GivesUpOnlyWhenNothingLeft` | request_executor.go:1115-1151 | giving up means that every node with a URL has failures and node 0 was tried, also after the refresh that status 410 asks for |
| `Failover.FailoverExactly` | request_executor.go:1115-1151 | while nobody else touches the counters: the nodes tried are the one given, then the healthy ones in order, then the first node, up to the first that is not down; exactly those down have one more failure; the command gives up exactly if all were down |
| `Failover.RefreshedFailoverExactly` | request_executor.go:1080-1097 | the same after status 410 on the refreshed topology, with zero counters |
| `Failover.OnlyTriedNodesAreMarked` | node_selector.go:25-32 | a command raises the counter of a node only if it tried it, and gives up only if it tried every healthy one |
| `Failover.UnknownNodeGivesUp` | request_executor.go:1122-1125 | a node without an index is not failed over from |
| `Failover.GoneFails` | request_executor.go:1080-1097 | a second 410, a failed refresh and an empty topology are errors |
| `Failover.SucceedsExactly` | request_executor.go:831-878 | success exactly if the last attempt got a good reply that can be processed and the first one was not answered with 410 |
| `Failover.GoneThenSuccessFails` | request_executor.go:1080-1097 | 410 and then a success is an error |
| `Failover.RequestExecutor.ExecuteCommand` | request_executor.go:787-936 | the recursion agrees with the model and ends |
| `Failover.RequestExecutor.UnsuccessfulResponse` | request_executor.go:1062-1109 | 404, 410 and refusals |
| `Failover.RequestExecutor.ServerDown` | request_executor.go:1115-1151 | the failed node is recorded, the next one tried unless it failed before |
| `HttpCache.CacheRefinesServer` | request_executor.go:795-861 | under the stated conditions every read on the aggressive, 304, 200 and 404 paths gets the server's answer |
| `HttpCache.RunRight` | request_executor.go:795-861 | the same from any state that satisfies the invariant |
| `HttpCache.CacheHitRight` | http_cache.go:147-151 | an answer from the cache is the server's present answer |
| `HttpCache.HitExactly` | http_cache.go:147-151 | a read is answered from the cache exactly if 2^32 divides the number of bumps since the item was stored |
| `HttpCache.StoredExactly` | raven_command.go:156-167 | what each delivered response stores, under the present generation |
| `HttpCache.StoredIsRevalidated` | request_executor.go:798-810 | a later read sends the stored ETag, and gets a 304 if the server still has it |
| `HttpCache.BumpConditionNecessary` | http_cache.go:92-99 | a bump while a response is in flight that the server no longer has: delivered and read again, the read is wrong |
| `HttpCache.BumpExactly` | http_cache.go:92-99 | a bump meets the stated condition exactly if for every response in flight that will be stored the reads after bump and delivery are right |
| `HttpCache.DeliveryRight` | raven_command.go:156-167 | a processed response gives the answer the server had when asked |
| `HttpCache.WrapsAround` | http_cache.go:57-64 | the counter has 32 bits |
| `HttpCache.WrapServesStale` | http_cache.go:57-64 | 2^32 bumps later an old value passes for the present one |
| `HttpCache.BumpInFlightServesStale` | http_cache.go:92-99 | a bump between response and set stamps the old value as new |
| `HttpCache.Cacher.Begin` | request_executor.go:795-810 | the answer from the cache, or the condition sent to the server |
| `HttpCache.Cacher.BumpGeneration` | http_cache.go:57-59 | the 32-bit increment wraps around |
| `HttpCache.Cacher.Finish` | request_executor.go:854-861 | what each status stores and returns |
| `Subscription.AcknowledgementSafety` | subscription_worker.go:448-482 | each ack follows a callback that returned nil and carries the change vector of that batch's last item, under any stream and cancellation |
| `Subscription.EveryBatchIsAcked` | subscription_worker.go:469-479 | on a live connection every callback that returned nil is followed by its ack |
| `Subscription.OnlyUsableDelivered` | subscription_batch.go:87-165 | the callback never sees an item without metadata, id or change vector, or one that does not decode |
| `Subscription.RoundEndsExactly` | subscription_worker.go:448-482 | when a round ends in peace, with the cancellation error, or with an error before the callback |
| `Subscription.ReadingStopsExactly` | subscription_worker.go:507-516 | when reading stops, breaks, or takes the next message |
| `Subscription.BadMessageFails` | subscription_worker.go:530-537 | refused connections, errors and unknown messages end the batch with an error |
| `Subscription.FailureEnds` | subscription_worker.go:469-479 | a failed callback, and an ack that cannot be written unless errors are ignored, end the run |
| `Subscription.DeliveredIsPrefix` | subscription_worker.go:503-540 | if confirmations come only before a batch's first document, delivered batches concatenate to a prefix of the documents sent |
| `Subscription.ConnectionSafety` | subscription_worker.go:448-482 | both from the first message of a connection on |
| `Subscription.BatchArrivesExactly` | subscription_worker.go:503-540 | of a batch exactly the documents since its last confirmation arrive, which are all of them exactly if no confirmation follows a document |
| `Subscription.EverythingArrivesExactly` | subscription_worker.go:448-540 | on complete batches all documents of a connection arrive exactly if no confirmation comes inside a batch |
| `Subscription.ConfirmForgets` | subscription_worker.go:522-526 | a confirmation drops what was read of the batch |
| `Subscription.ConfirmLosesDocument` | subscription_worker.go:522-526 | a stream in which a document is lost |
| `Subscription.SubscriptionWorker.ReadNextObject` | subscription_worker.go:554-568 | nothing while shutting down, an error at the end of the stream |
| `Subscription.SubscriptionWorker.ReadSingleBatch` | subscription_worker.go:503-540 | the read loop agrees with the model |
| `Subscription.SubscriptionWorker.Initialize` | subscription_batch.go:87-165 | the items in order, and the last change vector, empty for an empty batch |
| `Subscription.SubscriptionWorker.HandleBatch` | subscription_worker.go:469-479 | the callback, then the acknowledgement |
| `Subscription.SubscriptionWorker.ProcessSubscription` | subscription_worker.go:448-482 | the loop agrees with the model |
| `HiLo.RunConserves` | hi_lo_id_generator.go:65-114 | ids granted are the disjoint union of ids returned and the interval handed back, and none is returned twice |
| `HiLo.Conservation` | hi_lo_id_generator.go:42-50 | the same from the first call on |
| `HiLo.NextExactly` | hi_lo_id_generator.go:65-104 | the next id of the range, or the first one of the range granted, or an error |
| `HiLo.DeadlockExactly` | hi_lo_id_generator.go:65-87 | the self-deadlock happens exactly on an empty grant when the range is used up |
| `HiLo.ReturnedRangeIsUsed` | hi_lo_id_generator.go:106-114 | an id from the range just handed back is given out next |
| `HiLo.PlayInv` | hi_lo_id_generator.go:65-73 | under any interleaving ids from the atomic path are pairwise distinct |
| `HiLo.IssuedDistinct` | hi_lo_id_generator.go:65-73 | and lie inside a granted range |
| `HiLo.AtomicIdsDistinct` | hi_lo_id_generator.go:65-73 | both from the start on, for every sequence of events |
| `HiLo.SecondLookNeverNew` | hi_lo_id_generator.go:78-81 | in every reachable state the re-read of a range in use gives nobody a new id |
| `HiLo.SecondLookRepeats` | hi_lo_id_generator.go:78-81 | the re-read under the lock never gives a new id |
| `HiLo.SlowPathDuplicates` | hi_lo_id_generator.go:75-81 | an interleaving that gives one id twice |
| `HiLo.Generator.Next` | hi_lo_id_generator.go:65-87 | the retry loop agrees with the model |
| `HiLo.Generator.ReturnUnusedRange` | hi_lo_id_generator.go:106-114 | what is handed back is what was granted and not given |
| `Durations.RoundTrip` | duration.go:15-113 | for every 64-bit duration both conversions succeed, and this is what survives |
| `Durations.RoundTripExact` | duration.go:15-113 | the result is the duration cut to milliseconds exactly if it is not negative, or shorter than a day without odd milliseconds |
| `Durations.TextExactly` | duration.go:26-38 | the text, character by character |
| `Durations.ExampleTexts` | duration_serialization_test.go:15-16 | five days and two hours, and five milliseconds |
| `Durations.FractionRead` | duration.go:84-96 | a fraction of one or two digits stands for tenths or hundredths; of more digits three count |
| `Durations.RefusedTexts` | duration.go:46-56 | only quoted texts of at least ten characters with two colons are read, with at most one dot in the first and in the third part |
| `Durations.NumbersAreDigits` | duration.go:63-82 | numbers are an optional sign and digits |
| `Durations.NegativeDayLost` | duration.go:27-30 | minus 25 hours comes back as minus one hour |
| `Durations.NegativeMillisLost` | duration.go:34-37 | minus 1.5 seconds comes back as minus one second |
| `Durations.MarshalJSON` | duration.go:15-39 | the steps on the shrinking remainder write the text of the parts |
| `Durations.UnmarshalJSON` | duration.go:42-113 | reading the text, and the sum in 64 bits |
| `Durations.PadMillis` | duration.go:89-96 | the padding loop: three digits exactly |

## Left out

- HTTP, TLS, TCP, JSON encoding, reflection and timers: replies, decoded values, converted structs and elapsed time are parameters.
- Letter case is folded for the letters A to Z only; other Unicode case pairs are not modelled.
- Listeners, `Clear`, no-tracking loads, revisions, metadata objects handed to users and entities that are maps: they enter or empty single indexes, or mark metadata as changed merely by reading it.
- Failed saves as steps of a run: a save that fails half-way leaves entries out of the index, so runs contain saves that succeed.
- SessionObject.InMemorySession.SetLoadResult: nothing is registered for includes that are missing, because the code leaves that part out as well.
- `LoadOperation.createRequest` and its check for includes; lazy loads, bulk insert, attachments and compare-exchange.
- The order in which removed names are listed is a function of the two documents.
- Entries are positions in a list of entries instead of pointers, and a save copies metadata where the code shares one map between entry and document.
- Script text: patches are lists of lines with named arguments; how the server parses the text is not part of the model, and what a line does to a value of another kind than it works on is a parameter. Users' own patch commands passed to `Defer` are left out.
- RQL text of tokens; `whereLucene`, which overwrites the operator and negation it has just appended; `moreLikeThis`, `intersect` and raw queries.
- AND binds tighter than OR in both readings of a clause; the code itself never evaluates one.
- The speed test under concurrent recordings; the timer that would restart it; topology updates other than the forced one.
- Which error a command that fails returns; an executor without a node selector; health-check timers; running a command on all nodes at once.
- Cache eviction and size; time enters only as "expired or not".
- Connecting, the first status message and reconnecting of the subscription worker.
- The mutex path of the id allocator beyond its second look; prefix and server tag; overflow of 64-bit ids.

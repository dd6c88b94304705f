# tdrive: a verified model

tdrive keeps one logical drive as captioned Telegram messages and treats its SQLite index as a
cache of them. This project models the parts of it in which that idea, the reading of segmented
files and the admission of transfers are decided, and proves in Dafny 4.11 that they keep their
promises.

`dafny verify dfyconfig.toml` checks everything.

## What is modelled

**The channel is the truth, the index is a cache.** `TagCodec` prints and parses captions on top
of `Text`, `Utf8`, `Base32` and `Decimal`; `TagCodecLoops` has its loops, `Legible` says exactly
when a caption reads back as the row it was written for. `Paths` and `Tree` are
the path algebra and the directory table with its denormalised path column and SQLite's `LIKE`.
`Drive` states what it means that channel and index are in step, `DriveSteps` and `DriveRuns` give
the single mutations and whole runs of them, `DriveService` the operations on paths that take
those mutations, `Uploads` the life of an upload. `Channel`, `BuildTree`, `Dedupe` and `Rebuild`
are the indexer, and `Recovery` proves that a rebuild reproduces the index. `BatchRename` (with
`CaseFold`) parks and applies many renames as one.

**Reading.** `Geometry` cuts files into segments and ranges into pieces, `Chunks` ranges into
aligned fetches; `ChunkPipe` is the concurrent pipeline as a step relation, `Reader` the seekable
file on top of it.

**Admission.** `Limiter`, `Quota` and `Schedule` hand out task slots and daily bytes,
`UploadLease` and `DownloadSession` share one slot among many requests. `UploadJob` is the segment
bitset, `StagedCache` the download cache's rows with eviction and sweeps (`Sums` adds up their
sizes), `StagedRuns` every interleaving of the calls and workers that write them, `Handles` the
per-account document handles.

Lock-protected code is modelled by its critical sections: a class whose methods are the sections,
each proved to compute one step of a state machine, and lemmas over all runs of that machine.

## What has to be assumed, and what turned out false

Each of these is an explicit hypothesis of a theorem, or the condition of an if-and-only-if.

- Subtree rewrites use `LIKE`, which folds ASCII case: a sibling that differs only in case is
  dragged along. `Tree.RelocateConsistentIff` gives the exact condition.
- Folder tags share the token space with machine tags, and a file name that begins with the marker
  word makes the display line part of the tag block. `TagCodec.FileRoundTripIff` says when the
  whole record comes back, `Legible.LegibleIff` when the row does: no tag is malformed, and in
  each field the last tag agrees with the record. Making or naming the folder does no harm; the
  captions written below it do, so sending a segment, moving a file and refreshing captions carry
  the condition (`DriveRuns.StepKeepsInvIff`). `Recovery.FolderNamedDirLosesFile` is a run that
  makes a folder called dir, sends a file into it, and loses the file in the next rebuild.
  Not every machine tag does harm: `Legible.FolderV1IsHarmless`.
- A segment sent twice leaves its first message in the channel. Deleting the file removes only the
  current messages, so a later rebuild brings the file back: `Recovery.UncleanDeleteReturns`.
- A file row without any landed segment has no caption and does not survive a rebuild.
- A directory record that carries the reserved id of the recovery folder and has to be rescued
  becomes its own parent: `BuildTree.AcyclicIff`.
- Batch rename validates neither that no file is hidden behind a directory that has to make way,
  nor that an unfinished upload does not keep its name, which makes the batch fail in the middle
  because `Stat` hides such files. Every rename succeeds exactly when both hold:
  `BatchRename.Execute`; `BatchRename.FileBehindFails` and `BatchRename.UploadKeepsNameFails` are
  batches that pass validation and fail. It does not check for nested sources either, nor for
  directories that `LIKE` takes for part of a source; `BatchRename.Assumed` excludes those.
- The cache limit is not kept by every run. Cancelling a staged download looks for the worker first
  and marks the row later; a worker that registers in between is not stopped, and the room it still
  fills is given away. A status that is written unconditionally does the same: by a client's progress
  report, or by the resume of a job whose file is gone. A call that makes room holds `stageMu`, but
  workers do not, so what it subtracts for a deleted row it may never have counted.
  `StagedRuns.RunWithinLimit` keeps the limit in every run without such a job, `StagedRuns.RunBounded`
  exceeds it at most by the sizes of the jobs that ever were one, `StagedRuns.RaceOpensIff` says
  which writes make a job one. The bound is attained: `StagedRuns.RaceExceedsLimit` ends with twice
  the limit in use, `StagedRuns.EvictedRaceExceedsLimit` with three halves of it after the job's row
  is gone. A client that reports a job as running revives it whatever its state was; only such jobs
  are exempt from there being one active job per file.
- The reader's guarantee ends with the first error: `ChunkPipe.ErrorSkipsChunk`.
- Quota counts no broken files, but overwriting one's own subtracts its size: `Uploads.BrokenOverwriteIsFree`. In every
  other case a growing upload that is accepted stays within the quota: `Uploads.Begin`.
- A transfer may be charged more than it reserved; the daily bound grows by exactly that:
  `Quota.RunKept`, attained by `Quota.BoundIsAttained`.
- A cached handle survives a re-upload of its segment and is then presented for another document
  of the same account: `Handles.StepSameDocumentIff`, `Handles.StaleHandleExample`.
- Document reads return exactly the requested bytes cut at the document's end; the segment size
  and the limits are not changed in the middle of a run.

## Model

| member | source | states |
|---|---|---|
| `Recovery.AnyRunRecovers` | internal/indexer/indexer.go:1-10 | after any run of clean steps on a channel that first held only people's messages, losing the index and rebuilding yields exactly the index's directories and segments, and every file of which something was sent |
| `Recovery.RebuildReproduces` | internal/indexer/indexer.go:172-197 | in any state in which channel and index are in step, the rebuilt index has the same directory rows (id, parent, name, path, message), the same segment-to-message map with sizes, and the same file rows, complete exactly when all segments have landed; files with no landed segment are the only ones missing |
| `Recovery.CompleteFilesRecovered` | internal/indexer/indexer.go:437-511 | a complete file comes back with its row unchanged |
| `Recovery.AnyHistoryRecovers` | internal/indexer/indexer.go:1-10 | the index may be lost and rebuilt any number of times between runs: the next rebuild again yields exactly the index, and what a rebuild leaves is in step |
| `Recovery.RebuiltInStep` | internal/indexer/indexer.go:172-197 | the index a rebuild leaves and the channel are in step again |
| `Recovery.RecoveredCaptionTells` | internal/drive/upload.go:345-367 | after a segment is sent a rebuild can only equal the index if the caption reads as this file and segment with the right count and sizes; name, directory and owner are all that a rebuild may replace |
| `Recovery.FileBelowDirLost` | internal/tagcodec/tagcodec.go:221-225 | a file below a top folder whose tag is dir is, once sent, a directory to every rebuild and no file |
| `Recovery.FolderNamedDirLosesFile` | internal/tagcodec/tagcodec.go:221-225 | the run from a new drive that makes such a folder and sends a file into it, after which every rebuild has lost the file |
| `Recovery.UncleanDeleteReturns` | internal/drive/ops.go:295-305 | after deleting a file the next scan finds it again exactly when some segment of it had been sent twice |
| `Recovery.FoundSeg` | internal/indexer/indexer.go:234-268 | the scan finds a segment exactly when its row exists, in the row's own message and with its size, whatever older copies there are |
| `Recovery.FoundRec` | internal/indexer/indexer.go:234-268 | the record kept for a file is that of its newest message, which tells the file's row |
| `Recovery.AllLandedIffCount` | internal/indexer/indexer.go:458-467 | comparing the number of distinct segments with the captioned count decides whether all are there |
| `Rebuild.RebuildIndex` | internal/indexer/indexer.go:172-197 | on any channel: every decoded record is scanned newest first, the tree is the rebuilt one made distinct, segment rows are those found, file names are made distinct, unknown owners become empty; only names that are not plain can make the write fail; each file row has its record's sizes and segment count, is complete exactly when all segments were found, lies in its captioned directory if that exists, and keeps its owner exactly when the account exists |
| `Rebuild.RebuildSucceeds` | internal/indexer/indexer.go:540-560 | for all records with plain names, none of which claims the id of a recovery folder that is made, the write succeeds: a consistent tree with every directory once, every file once, in an existing directory or at the root, no two names alike |
| `Rebuild.BuildFiles` | internal/indexer/indexer.go:437-511 | one row per file record and one per segment found, in any map order; a file is broken exactly when the count does not match, and broken ones are counted |
| `Rebuild.AddSegments` | internal/indexer/indexer.go:484-505 | the segment rows of one more file are added and no other is touched |
| `Rebuild.DedupeNames` | internal/indexer/indexer.go:513-533 | names come out pairwise distinct per directory, each the old one or the old one numbered; distinct names stay |
| `Rebuild.Replace` | internal/database/tree.go:464-524 | all rows in one transaction: either the whole table comes back, with unknown owners cleared, or nothing, and nothing only if the tree was not consistent; what comes back has unique paths and names, and every parent has a row |
| `Channel.Scan` | internal/indexer/indexer.go:200-230 | over a history newest first, with foreign and malformed messages in it, each directory record is that of its newest message, each file's record likewise, and each segment is where its newest message is |
| `BuildTree.Build` | internal/indexer/indexer.go:276-379 | place, rescue and cycle breaking terminate on any records and compute one table, whatever order the maps are iterated in |
| `BuildTree.Place` | internal/indexer/indexer.go:285-309 | the settling passes reach the least table closed under known parents |
| `BuildTree.PlacePass` | internal/indexer/indexer.go:287-307 | one pass in any order only derives rows from their parents' rows, and makes progress or is finished |
| `BuildTree.CollectTops` | internal/indexer/indexer.go:317-326 | the records waiting whose parent has no record |
| `BuildTree.FindLowest` | internal/indexer/indexer.go:328-341 | the lowest waiting id, if any |
| `BuildTree.RerootAll` | internal/indexer/indexer.go:348-370 | the chosen records move under the recovery folder, which gets its own row first |
| `BuildTree.OneRowPerRecord` | internal/indexer/indexer.go:276-379 | exactly one row per record, plus the recovery folder when something had to be rescued |
| `BuildTree.RebuiltChained` | internal/indexer/indexer.go:276-379 | every parent has a row and every path extends its parent's, unless a record claims the id of a recovery folder that is made |
| `BuildTree.RebuiltLinked` | internal/indexer/indexer.go:276-379 | likewise every record keeps its own name and message, and plain names give a linked tree |
| `BuildTree.RescueChoice` | internal/indexer/indexer.go:330-379 | all waiting records whose parent has no record are re-rooted at once; when there is none, the lowest id alone |
| `BuildTree.CycleOfTwo` | internal/indexer/indexer.go:340-379 | of two directories that are each other's parents the older moves under the recovery folder and the other stays below it |
| `BuildTree.AcyclicIff` | internal/indexer/indexer.go:311-379 | no directory is its own ancestor, exactly when no record that has to be rescued claims the reserved id of the recovery folder |
| `BuildTree.SelfParentExample` | internal/indexer/indexer.go:380-383 | one stray record with the reserved id becomes its own parent |
| `BuildTree.CaptionedParentKept` | internal/indexer/indexer.go:311-315 | a directory whose parent has a record and whose ancestor chain ends keeps its captioned parent and name |
| `BuildTree.DerivedUnique` | internal/indexer/indexer.go:285-309 | any closed derivation is the fixpoint, so iteration order cannot matter |
| `BuildTree.IntactRecordsRebuild` | internal/indexer/indexer.go:276-379 | the records of a consistent table rebuild that table |
| `Dedupe.DedupePaths` | internal/indexer/indexer.go:391-433 | paths come out pairwise distinct, parents and messages stay, names are the old ones or numbered; a linked tree comes out consistent, and an already distinct one unchanged; a directory of a linked tree loses its plain name only to one closer to the root, or as deep and older, that has the path |
| `Dedupe.SortIds` | internal/indexer/indexer.go:396-407 | all ids, shallowest first, oldest id first within a depth |
| `Dedupe.FreeVariant` | internal/indexer/indexer.go:422-425 | the search for a free number ends, at the first variant that is free |
| `Dedupe.DedupeFileNames` | internal/indexer/indexer.go:513-533 | distinct names per directory, each the old one or numbered from 2, and numbered only when an older file of the directory bears it; distinct names stay |
| `Dedupe.WriteOrder` | internal/indexer/indexer.go:548-557 | every row once, shorter paths first |
| `Dedupe.InsertAll` | internal/database/tree.go:490-498 | in that order the foreign key and the unique indexes hold at every insert of a consistent table, so all of it is written; whatever was written in full has unique paths and names, and every parent has a row |
| `DriveRuns.StepKeepsInvIff` | internal/drive/ops.go:1-18 | each mutation keeps channel and index in step exactly when it is clean: the captions it writes read back as their rows, no ASCII case twin is dragged along, no older copy of a deleted segment is left |
| `DriveRuns.RunKeepsInv` | internal/drive/ops.go:15-18 | every state after a run of clean steps has channel and index in step |
| `DriveRuns.NewDriveOk` | internal/indexer/indexer.go:232-242 | a channel with people's messages only is in step with an empty index |
| `DriveRuns.StepRelocateIff` | internal/drive/ops.go:81-109 | a directory rename or move keeps everything in step exactly when LIKE drags no foreign row along |
| `DriveRuns.StepDeleteDirIff` | internal/drive/ops.go:234-250 | a subtree delete keeps everything in step exactly when LIKE matches the subtree alone and no deleted segment was sent twice |
| `DriveRuns.StepDeleteFileIff` | internal/drive/ops.go:295-305 | a file delete does exactly when none of its segments was sent twice |
| `DriveSteps.StepCreateDir` | internal/drive/drive.go:389-437 | a new directory's message tells its row, and only that |
| `DriveSteps.StepPutSegment` | internal/drive/upload.go:184-282 | a sent, or re-sent, segment with a legible caption: the newest message becomes the current one, older ones are superseded |
| `DriveRuns.StepPutIff` | internal/drive/upload.go:184-282 | sending a segment keeps everything in step exactly when its caption is legible |
| `DriveRuns.StepPlaceIff` | internal/drive/ops.go:383-419 | a file rename or move does exactly when the new captions of all its landed segments are legible |
| `DriveRuns.StepRefreshIff` | internal/drive/ops.go:427-456 | so does refreshing folder hashtags |
| `DriveSteps.StepCompleteFile` | internal/drive/upload.go:371-401 | completing changes nothing a caption tells, and only a file with all segments is complete |
| `DriveSteps.StepHumanMessage` | internal/indexer/indexer.go:234-246 | a message that does not decode changes nothing |
| `DriveSteps.FileAfter` | internal/database/tree.go:278-309 | what any mutation makes of one file's row: gone exactly when it or a directory above it is deleted; owner and segment size never change, size and count only before the first segment, place and name only in its own rename or move |
| `DriveSteps.RowsAfter` | internal/database/tree.go:305-341 | a segment's row is written only when the segment is sent and goes with its file; a file's row appears only when it is inserted |
| `DriveSteps.MessagesAfter` | internal/drive/ops.go:295-305 | messages keep their documents, go only in a delete, and deleting a file takes exactly the messages its segment rows point at |
| `Drive.DirCaptionTells` | internal/drive/drive.go:389-402 | the caption written for a directory row decodes to that row, whatever the folders are called |
| `Drive.FileCaptionTellsIff` | internal/drive/upload.go:345-367 | the caption written for a segment decodes to the file row and that segment exactly when it is legible |
| `Drive.PlainNamesReadable` | internal/drive/upload.go:345-367 | it is when no folder above the file has the name of a machine tag and the file name does not begin with the marker word |
| `Drive.NameRules` | internal/drive/path.go:103-128 | every name is allowed except the empty one, the dot names, names with a slash or a control character, and those longer than 255 bytes |
| `DriveService.Service.Rename` | internal/drive/ops.go:20-79 | the outcome in every case, spelled out: a bad name, the root, the same name, a missing parent, a taken name, nothing there, a file, and a directory, which fails exactly when its relocated paths collide and never without a case twin; on success exactly the entry at the path has the new name: for a directory the prefix swap of its subtree, for a file its row, and the entry is found at the new path and no longer at the old one; otherwise nothing changes; after a directory's rename every landed segment below it carries its new caption; clean steps keep channel and index in step |
| `DriveService.Service.RenameDir` | internal/drive/ops.go:81-109 | refused exactly when a unique index would be met, otherwise the relocated table, and every landed segment below carries its new caption |
| `DriveService.Service.Move` | internal/drive/ops.go:128-213 | loops are refused before anything is made; then the target path is made; a taken name answers that it exists, nothing there that it was not found, a file moves, and a directory moves unless its relocated paths collide, which takes a case twin; a moved entry is found at its new path and no longer at the old one; after a directory's move every landed segment below it carries its new caption |
| `DriveService.Service.Mkdir` | internal/drive/drive.go:325-387 | fails exactly when a file has the name of the first missing directory, and then changes nothing; otherwise the path resolves and only directories on the way to it were added |
| `DriveService.Service.Delete` | internal/drive/ops.go:221-271 | exactly the entry and what lies below it is gone, with its segments |
| `DriveService.Service.CheckFree` | internal/drive/ops.go:345-357 | true exactly when neither a directory nor a file has the name |
| `DriveService.NameFreeIff` | internal/drive/ops.go:345-357 | a name is free in a directory exactly when nothing is found at its path |
| `DriveService.Service.Lookup` | internal/drive/drive.go:219-250 | a directory at the path, else a file in its parent, else nothing |
| `DriveService.EntryFound` | internal/drive/drive.go:219-250 | in a consistent index every directory is found at its own path, and every file at its own unless a directory is in front of it |
| `DriveService.Service.RefreshSubtree` | internal/drive/ops.go:427-456 | the index stays, and afterwards the current message of every landed segment of every file at or below the directory carries the caption built from the present path, given that no two segments share a message |
| `DriveService.EntryHome` | internal/drive/ops.go:40-66 | the entry at a clean path lives in the resolved parent under the path's last name |
| `DriveService.RenameIsRelocate` | internal/drive/ops.go:44-54 | a free name makes an in-place rename a legitimate relocation: never into itself, never onto a taken path |
| `DriveService.GrownEntry` | internal/drive/ops.go:149-164 | directories made for the target hide no entry outside it |
| `DriveService.KeepsInv` | internal/drive/ops.go:15-18 | an operation whose steps are clean keeps channel and index in step |
| `Uploads.Begin` | internal/drive/upload.go:57-151 | which requests are refused and why, the owner's quota included, which counts only the difference when one's own file is overwritten: a refused upload would have left its owner above the quota, an accepted one that grows the owner's files leaves the owner within it unless it replaces a broken file; otherwise a pending row with the file's geometry, a job with no bit set, and no file lost but the one overwritten |
| `Uploads.NetBytesMean` | internal/drive/upload.go:71-95 | the bytes that are checked are what the upload adds to the owner's counted files, and fewer exactly when it replaces a broken file of the owner |
| `Uploads.BrokenOverwriteIsFree` | internal/database/users.go:160-171 | overwriting one's own broken file by as many bytes passes any quota and adds them all |
| `Uploads.PutOne` | internal/drive/upload.go:184-282 | stored exactly when the job is under way, the index in range and the length the segment's own; then the row is there before its bit, and no other segment changes |
| `Uploads.Complete` | internal/drive/upload.go:371-401 | refused until every bit is set; then every segment row is there and the file is complete |
| `Uploads.PutKeepsStep` | internal/drive/upload.go:262-277 | a set bit always stands for a row that exists |
| `Tree.RelocateConsistentIff` | internal/database/tree.go:155-202 | a rename or move keeps parent links, unique names and stored paths right exactly when no row outside the subtree differs from its prefix in ASCII case only |
| `Tree.RelocateIsRecompute` | internal/database/tree.go:155-202 | the one prefix-swap UPDATE equals recomputing every descendant's path |
| `Tree.SwapNeverCollides` | internal/database/tree.go:170-178 | in whatever order the rows are updated no rewritten path meets one still stored elsewhere |
| `Tree.CaseTwinExample` | internal/database/tree.go:170-176 | with siblings /a and /A a rename of /a breaks the row of /A/x |
| `Tree.EscapedPatternIsPrefix` | internal/database/tree.go:571-574 | the escaped subtree pattern is a literal prefix test up to ASCII case, whatever wildcards the name holds |
| `Tree.StoredPathIsWalk` | internal/database/schema.sql:134-145 | the stored path is the walk of names from the root |
| `Tree.PathsUnique` | internal/database/schema.sql:138-145 | unique names under each parent make all paths unique |
| `Tree.CascadeIsSubtree` | internal/database/tree.go:207-210 | the cascade deletes exactly the rows at or below the path |
| `Tree.SubtreeRowsAreCascadeIff` | internal/database/tree.go:394-431 | the messages collected before a delete are those of the deleted rows exactly when no case twin exists |
| `Tree.DeleteConsistent` | internal/database/tree.go:207-210 | what a delete leaves is consistent |
| `Tree.DirTable.InsertDir` | internal/database/tree.go:43-53 | refused exactly on a taken id, path or name; keeps a consistent table consistent |
| `Tree.DirTable.Update` | internal/database/tree.go:155-202 | one transaction: done exactly when the row exists and neither UPDATE meets a unique index, else nothing changes; a legitimate move without case twins is always done |
| `Tree.DirTable.RenameDir` | internal/database/tree.go:155-179 | the relocated table under the same parent, or no change |
| `Tree.DirTable.MoveDir` | internal/database/tree.go:184-202 | the relocated table under the same name, or no change |
| `Tree.DirTable.DeleteDir` | internal/database/tree.go:207-210 | the row and everything below its path, nothing else |
| `CaseFold.LikeIsDescendant` | internal/database/tree.go:173-176 | when sibling names differ in more than ASCII case a LIKE match lies in the subtree |
| `CaseFold.RenameHasNoTwin` | internal/database/tree.go:155-179 | and then a rename in place drags no foreign row along |
| `Paths.ParentOfJoin` | internal/drive/path.go:82-99 | Parent undoes Join |
| `Paths.JoinInjective` | internal/drive/path.go:82-87 | a path determines its directory and name |
| `Paths.SplitOfPath` | internal/drive/path.go:73-79 | the components of a clean path are the names on the walk |
| `Paths.DescendantOfJoin` | internal/drive/path.go:133-138 | inside a directory means that it, or something inside it, is the parent |
| `BatchRename.Validate` | internal/api/fs.go:209-283 | the first phase accepts a batch exactly when sources exist and are distinct, targets are distinct, names valid, and each target is a source or free |
| `BatchRename.Execute` | internal/api/fs.go:285-352 | parking in any order and applying: every rename succeeds exactly when no file is behind a directory that makes way and no unfinished upload keeps its name, and then the result is all renames at once, for chains, swaps and cycles of any length |
| `BatchRename.Park` | internal/api/fs.go:296-336 | after parking every conflicting source bears its temporary name and nothing else has changed |
| `BatchRename.ApplyItem` | internal/api/fs.go:342-372 | one item succeeds exactly when it is not stuck; then its source has its new name and the rest are where they were |
| `BatchRename.SubstitutionUnique` | internal/api/fs.go:285-372 | the renamed tables are determined by the names, so no other way of substituting them gives a different tree |
| `BatchRename.ApplyFree` | internal/api/fs.go:267-283 | once everything in the way is parked the next new name is free, unless a file is behind a parked directory |
| `BatchRename.ParkFree` | internal/api/fs.go:306-322 | a fresh temporary name is free |
| `BatchRename.RenameSucceeds` | internal/api/fs.go:354-372 | within the batch a rename to a free name succeeds on the intended entry |
| `BatchRename.KeepsName` | internal/api/fs.go:342-354 | an item that keeps its name is not parked, only looks at its entry, and finds it exactly when it is no unfinished upload |
| `BatchRename.StuckFails` | internal/api/fs.go:342-354 | an item whose target directory was parked off a file of the same path answers that the name exists |
| `BatchRename.NoneStuckIff` | internal/api/fs.go:285-372 | no item is stuck exactly when both conditions of the batch hold |
| `BatchRename.StageTwinFree` | internal/database/tree.go:173-176 | at every stage a rename of the batch drags no foreign directory along |
| `BatchRename.UploadKeepsNameFails` | internal/api/fs.go:392-417 | a batch that passes validation and fails: an unfinished upload keeps its name |
| `BatchRename.FileBehindFails` | internal/api/fs.go:296-336 | and another: the file behind a parked directory is in the way |
| `TagCodec.DirRoundTrip` | internal/tagcodec/tagcodec.go:121-143 | Decode of EncodeDir gives back the record for all valid ids and names and any one-line path |
| `TagCodec.FileRoundTripIff` | internal/tagcodec/tagcodec.go:148-199 | Decode of EncodeFile gives back kind, id, parent, name, segment, sizes, owner and the kept folder tags exactly when no kept folder tag has the shape of a machine tag and the display line does no harm: it does not begin with the marker word, or its tags parse, name no folder, and set no parent or owner that the record leaves open |
| `TagCodec.AssembleWithin` | internal/tagcodec/tagcodec.go:354-381 | assemble never refuses tags that fit, stays within 1024 UTF-16 units, keeps every machine tag, and drops folder tags from the end only |
| `TagCodec.FileTokensFit` | internal/tagcodec/tagcodec.go:148-181 | the machine tags of every valid file record fit the limit |
| `TagCodec.DirTokensFit` | internal/tagcodec/tagcodec.go:121-143 | so do those of every directory record |
| `TagCodec.CollectedTags` | internal/tagcodec/tagcodec.go:183-197 | kept tags are sanitised, distinct, non-empty, at most five |
| `TagCodec.CollectedInOrder` | internal/tagcodec/tagcodec.go:183-197 | the folder tags are the sanitised folder names in the order of their first occurrence, and before the fifth none is missing |
| `TagCodec.FileCarriesFolders` | internal/tagcodec/tagcodec.go:183-198 | when all of them fit, the caption carries exactly those after its own tags |
| `TagCodec.SanitizedForm` | internal/tagcodec/tagcodec.go:325-350 | other characters are dropped, a name of tag characters stays, digits alone get an underscore in front, and nothing is left exactly when no tag character was there |
| `TagCodec.DirDisplayTells` | internal/tagcodec/tagcodec.go:117-146 | the first line of a directory's caption shows its path, and the name that is read from it when the name tag is lost is the directory's |
| `TagCodec.FileDisplayTells` | internal/tagcodec/tagcodec.go:412-425 | the first line of a file's caption is its name, and is read back as such |
| `TagCodec.NamelessDirReads` | internal/tagcodec/tagcodec.go:412-425 | a directory's caption that has lost its name tag still decodes to the whole record, by the name on its first line |
| `TagCodec.EncodersRefuse` | internal/tagcodec/tagcodec.go:121-181 | the encoders refuse exactly ids, names and sizes that the format cannot hold |
| `TagCodec.SegmentsRead` | internal/tagcodec/tagcodec.go:427-442 | a segment tag reads as an index and a count exactly when it is two numbers around its first underscore, the first from one to the second |
| `TagCodec.DecodedSound` | internal/tagcodec/tagcodec.go:280-318 | whatever a caption says, a decoded record has a valid id, parent, owner and version, a name, and sane sizes |
| `TagCodec.TruncateUtf16` | internal/tagcodec/tagcodec.go:493-509 | a prefix of whole characters within the limit |
| `TagCodec.FileEncodes` | internal/tagcodec/tagcodec.go:148-199 | every valid file record is written with its whole display line and some of its folder tags |
| `TagCodecLoops.DecodeMessage` | internal/tagcodec/tagcodec.go:203-319 | the scanning loop computes the specified decoding, malformed tags included |
| `TagCodecLoops.FindTokens` | internal/tagcodec/tagcodec.go:386-408 | the tag block starts at the first line whose first word is the marker |
| `TagCodecLoops.AssembleCaption` | internal/tagcodec/tagcodec.go:354-381 | the shrinking loop computes the specified caption |
| `TagCodecLoops.Sanitize` | internal/tagcodec/tagcodec.go:325-348 | the character loop computes the specified tag, digits-only prefix included |
| `TagCodecLoops.Collect` | internal/tagcodec/tagcodec.go:183-197 | the tag loop stops at five and skips repeats |
| `TagCodecLoops.Truncate` | internal/tagcodec/tagcodec.go:493-509 | the longest prefix of whole characters within the limit; short strings unchanged |
| `TagCodecLoops.CountUtf16` | internal/tagcodec/tagcodec.go:480-489 | the length in UTF-16 units |
| `Legible.LegibleIff` | internal/tagcodec/tagcodec.go:203-319 | Decode of EncodeFile gives back the row (kind, id, parent, name, segment, sizes, owner) exactly when no tag of the caption is malformed and in each field the last tag says what the record says |
| `Legible.PlainIsLegible` | internal/tagcodec/tagcodec.go:183-197 | it does when no folder name has the shape of a machine tag and the name does not begin with the marker word |
| `Legible.FolderDirMakesDirectory` | internal/tagcodec/tagcodec.go:221-225 | below a folder called dir every valid file record reads back as a directory of the same id and name |
| `Legible.FolderV2IsUnknownVersion` | internal/tagcodec/tagcodec.go:226-231 | below one called v2 as an unknown version |
| `Legible.FolderSegXIsMalformed` | internal/tagcodec/tagcodec.go:245-250 | below one called seg_x not at all |
| `Legible.FolderV1IsHarmless` | internal/tagcodec/tagcodec.go:226-231 | below one called v1 the row still reads back |
| `Base32.DecodeEncoded` | internal/tagcodec/tagcodec.go:75-78 | name coding round-trips: base32 of RFC 4648 section 6 without padding |
| `Utf8.DecodeEncode` | internal/tagcodec/tagcodec.go:296-301 | and so does the UTF-8 of the name |
| `Decimal.ValueOfItoa` | internal/tagcodec/tagcodec.go:163-176 | printed numbers read back |
| `ChunkPipe.DeliversPrefix` | internal/reader/chunk.go:74-174 | for every interleaving of issuing, completing, failing, reading and closing: at most concurrency slots, at most buffers queued futures, and before the first error the delivered bytes are a prefix of the range |
| `ChunkPipe.DeliversAll` | internal/reader/chunk.go:74-174 | without failure or Close the pipeline takes boundedly many steps, never stalls, and ends only with the whole range delivered |
| `ChunkPipe.StepKept` | internal/reader/chunk.go:74-174 | every single step keeps the bounds, the truth of results and the order of bytes |
| `ChunkPipe.SomeStepEnabled` | internal/reader/chunk.go:74-174 | while bytes are owed somebody can move |
| `ChunkPipe.StepDoesWork` | internal/reader/chunk.go:74-174 | every step that is not a failure or a Close leaves less to do |
| `ChunkPipe.NextEffects` | internal/reader/chunk.go:74-174 | bytes are delivered by copying alone; a failed fetch and Close cancel for good; the pump is done once it stopped or published every chunk; a read fails exactly when it is cancelled, finds the queue closed, or receives a failure or an empty chunk |
| `ChunkPipe.NothingFails` | internal/reader/chunk.go:96-127 | left alone with a long enough document nothing fails |
| `ChunkPipe.ErrorSkipsChunk` | internal/reader/chunk.go:136-158 | after an error a reader that goes on gets the next chunk's bytes in place of the failed one's |
| `Chunks.ChunkSize` | internal/reader/chunk.go:190-196 | a power of two from 1 KiB to 1 MiB, the largest not longer than the distance |
| `Chunks.FetchAligned` | internal/reader/plan.go:88-98 | every fetch is aligned to its size and stays inside one 1 MiB block |
| `Chunks.FetchesCover` | internal/reader/plan.go:88-98 | the first fetch reaches into the range and the last covers its end |
| `Reader.ChunkReader.Read` | internal/reader/chunk.go:131-174 | the next bytes of the window in order, end of file exactly at its end, or an error and no bytes |
| `Reader.PipeRefinesReader` | internal/reader/chunk.go:74-174 | every step of the concurrent pipeline is invisible to the reading end or one step of the sequential reader, so what is proved of that holds of every interleaving |
| `Reader.ReadingStepKeepsOk` | internal/reader/chunk.go:131-174 | every step of the sequential reader, and so every step of the pipeline, keeps the reading end such that Read may be called on it |
| `Reader.ChunkReader.Fill` | internal/reader/chunk.go:136-158 | waiting for chunks is nothing or one step of that reader, and ends with bytes at hand or an error |
| `Reader.File.Read` | internal/reader/reader.go:91-134 | exactly content[pos..pos+n], never an empty success before the end, end of file exactly at the end; the loop terminates |
| `Reader.File.OpenAt` | internal/reader/reader.go:174-201 | a window starts at pos, lies inside one segment and holds something |
| `Reader.File.Seek` | internal/reader/reader.go:138-163 | position by whence, negative refused; moving drops the window and resets the readahead, staying keeps both |
| `Reader.Located` | internal/reader/reader.go:174-185 | an offset of the file lies in the computed segment at the computed place |
| `Geometry.CountSegments` | internal/config/config.go:393-403 | the ceiling division, one for an empty file |
| `Geometry.CountBounds` | internal/config/config.go:393-403 | the least number of segments that hold the file |
| `Geometry.SegmentsTile` | internal/api/stream.go:95-112 | the windows of the segments begin where the one before ends, are non-empty, at most the segment size, and sum to the file |
| `Geometry.FirstSegments` | internal/drive/upload.go:171-177 | the first n segment lengths sum to n segment sizes or the whole file |
| `Geometry.PlanRanges` | internal/reader/plan.go:38-67 | the pieces follow each other without gap or overlap from start to end, each inside one segment, consecutive indices; bad arguments are refused, empty ranges are empty |
| `Geometry.CoveredLength` | internal/reader/plan.go:38-67 | the pieces' lengths sum to the range's |
| `Geometry.StitchedIsRange` | internal/reader/plan.go:38-67 | reading the pieces segment by segment and stitching them gives the requested bytes |
| `UploadJob.CompleteIffAll` | internal/database/jobs.go:119-177 | under any order and repetition, uploaded bytes are the sum over set bits; a non-empty job is complete exactly when all bits are set, exactly when all bytes are up |
| `UploadJob.AbortedStays` | internal/database/jobs.go:203-225 | no conditional transition revives an aborted job |
| `UploadJob.EventTakes` | internal/database/jobs.go:119-225 | a job under way takes a start and an abort; a segment that lands is marked, and the job is complete then exactly when it was the last |
| `UploadJob.MaskSet` | internal/database/models.go:411-421 | exactly one index is added, the bitset growing as needed |
| `UploadJob.MaskWithHas` | internal/database/models.go:399-421 | setting a bit changes no other index, across byte boundaries |
| `UploadJob.PendingSegments` | internal/database/models.go:370-378 | the missing indices in order, none exactly when all are set |
| `UploadJob.Done` | internal/database/models.go:381-388 | true exactly when every index up to the count is set |
| `UploadJob.JobRow.MarkSegmentDone` | internal/database/jobs.go:119-177 | the read-modify-write: refused for aborted jobs, bytes counted once, exactly the one index added, complete when all are set and running otherwise |
| `UploadJob.JobRow.SetStatusIf` | internal/database/jobs.go:203-225 | applies exactly from the given statuses, and then writes the new one and nothing else |
| `Limiter.RunKept` | internal/drive/limiter.go:39-124 | in every reachable state the active count is the slots granted and not returned, nobody waits while a slot is free, and grants follow arrival among those that stayed |
| `Limiter.ArrivalEffect` | internal/drive/limiter.go:53-96 | an arrival gets a slot exactly when one is free, and otherwise waits last in line |
| `Limiter.DepartureEffect` | internal/drive/limiter.go:70-111 | who gives up or returns a slot has neither slot nor place afterwards, and nobody else loses either |
| `Limiter.LimitEffect` | internal/drive/limiter.go:39-51 | a new limit, one at least, holds from now on and takes no slot back |
| `Limiter.StepKept` | internal/drive/limiter.go:39-124 | each arrival, cancellation, release and limit change keeps that |
| `Limiter.CancelledGone` | internal/drive/limiter.go:74-94 | a cancelled ticket neither waits nor holds a slot afterwards |
| `Limiter.TaskLimiter.Arrive` | internal/drive/limiter.go:53-71 | fast path only when there is room and nobody waits, else the end of the queue |
| `Limiter.TaskLimiter.Cancel` | internal/drive/limiter.go:74-94 | a slot granted in the same moment goes back; otherwise the waiter leaves the queue |
| `Limiter.TaskLimiter.Release` | internal/drive/limiter.go:104-111 | the slot goes back and the queue moves on |
| `Limiter.TaskLimiter.SetLimit` | internal/drive/limiter.go:39-51 | at least one; an unchanged limit does nothing, a changed one wakes waiters |
| `Limiter.TaskLimiter.Dispatch` | internal/drive/limiter.go:113-124 | grants from the head while there is room |
| `Quota.RunKept` | internal/drive/quota.go:143-260 | reserved is the open sum; but for what transfers were charged beyond their reservations the limit holds except for one content that crosses it alone, and used stays below the limit plus the largest content plus the overrun |
| `Quota.HonestRunBounded` | internal/drive/quota.go:143-260 | when no transfer is charged more than it reserved, used stays below the limit plus the largest content |
| `Quota.BoundIsAttained` | internal/drive/limiter.go:382-391 | a run that reaches the bound, for every limit, largest content and overrun |
| `Quota.CommitOnce` | internal/drive/quota.go:233-243 | settling twice charges once and later corrections change nothing |
| `Quota.FitsMayStart` | internal/drive/quota.go:106-140 | a content fits exactly when used, reserved and its bytes stay within the limit; it may start exactly when it fits or the account is idle and below its limit |
| `Quota.CommitCharges` | internal/drive/quota.go:233-290 | settling takes the reservation off its key and charges the actual bytes, or the expected ones when none were told |
| `Quota.QuotaTracker.Reserve` | internal/drive/quota.go:143-166 | the claim is made exactly when the content may start |
| `Quota.QuotaTracker.Commit` | internal/drive/quota.go:233-260 | reserved drops by the expected, used grows by the actual size, once, and waiters are signalled |
| `Quota.QuotaTracker.SetActual` | internal/drive/quota.go:219-231 | ignored once committed, never negative |
| `Schedule.OneSlotOneReservationOrNeither` | internal/drive/schedule.go:35-181 | for any number of calls in any interleaving a leased call has exactly one slot and one open reservation, a settling one its slot until it returns it, any other none to keep, and none is left without its call |
| `Schedule.RunPaired` | internal/drive/schedule.go:35-181 | every step of the retry loop and of the release keeps slots and reservations paired with their calls |
| `Schedule.CallMoves` | internal/drive/schedule.go:113-181 | a step moves its own call alone: without an account, refused or given up it has lost its slot or its place; accepted it keeps the slot and opens one reservation; finishing settles that one, and returning frees the slot |
| `Schedule.FirstAccount` | internal/drive/schedule.go:188-206 | the first account that fits the content, and only when there is none the first that may start it |
| `Schedule.CanTake` | internal/drive/limiter.go:382-391 | an available account takes a content when used, reserved and the content's bytes stay within the limit; it may also start one when nothing is reserved and the limit is not reached |
| `UploadLease.SlotSafe` | internal/drive/limiter.go:397-587 | a lease's slot goes back at most once, never under an active request, and is not lost while it has not gone back |
| `UploadLease.ClosedAdmitsNone` | internal/drive/limiter.go:397-433 | a closed or failed lease is never reopened and admits no request |
| `UploadLease.JoinEffect` | internal/drive/limiter.go:397-440 | a request that waited enters exactly when the lease has neither failed nor been closed, and is counted then |
| `UploadLease.AdmittedEffect` | internal/drive/limiter.go:440-484 | with a slot and still open the lease holds it and its creator is in; closed meanwhile, the slot goes straight back; without a slot it has failed |
| `UploadLease.EndEffect` | internal/drive/limiter.go:525-549 | the last request of a closed lease gives the slot back and the job is forgotten; any other leaves the slot |
| `UploadLease.ReleaseEffect` | internal/drive/limiter.go:551-587 | releasing a job closes its lease, and an idle slot goes back at once |
| `UploadLease.StepKept` | internal/drive/limiter.go:397-587 | every critical section keeps that |
| `UploadLease.UploadJobs.Arrive` | internal/drive/limiter.go:405-444 | join, be refused by a closed lease, or create one |
| `UploadLease.UploadJobs.Join` | internal/drive/limiter.go:418-433 | entered exactly when the lease has its slot and is not closed |
| `UploadLease.UploadJobs.Admitted` | internal/drive/limiter.go:449-481 | a slot that comes to a closed lease goes straight back |
| `UploadLease.UploadJobs.EndRequest` | internal/drive/limiter.go:525-547 | the last request of a closed lease returns the slot; a second release does nothing |
| `UploadLease.UploadJobs.ReleaseJob` | internal/drive/limiter.go:551-587 | closes the lease and returns an idle slot |
| `DownloadSession.SlotSafe` | internal/drive/limiter.go:245-377 | a session with active requests holds its slot and is the one in the map, never exceeds the connection limit, and returns its slot at most once |
| `DownloadSession.StaleTimerHarmless` | internal/drive/limiter.go:344-356 | a timer that fires after its session ended returns no slot and touches no newer session |
| `DownloadSession.JoinEffect` | internal/drive/limiter.go:245-300 | a request that waited enters exactly when the session has not failed, is still its key's, and has a connection free |
| `DownloadSession.EndEffect` | internal/drive/limiter.go:326-362 | the last request arms the timer where there is a grace period, and otherwise gives the slot back and frees the key |
| `DownloadSession.FireEffect` | internal/drive/limiter.go:346-377 | a timer that finds a request at work only disarms; otherwise it gives back the slot that is still there |
| `DownloadSession.StepKept` | internal/drive/limiter.go:245-377 | every critical section and every late timer keeps that |
| `DownloadSession.DownloadSessions.Join` | internal/drive/limiter.go:274-294 | entered exactly when the session is current and below the limit |
| `DownloadSession.DownloadSessions.EndRequest` | internal/drive/limiter.go:326-343 | the last request arms the timer or ends the session |
| `DownloadSession.DownloadSessions.Fire` | internal/drive/limiter.go:344-356 | ends the session only if no request is active |
| `DownloadSession.DownloadSessions.Arrive` | internal/drive/limiter.go:254-306 | joining stops the idle timer, in time or not; otherwise a session is created |
| `StagedRuns.RunBounded` | internal/drive/download.go:70-145 | with a fixed limit, after every interleaving of measuring, listing, evicting one by one, inserting, resuming, registration, worker writes, cancellation, status reports, expiry, deletion and restarts there is one active job per file, reported ones aside, and usage exceeds the limit at most by the sizes of the jobs that ever raced, those whose rows are gone included |
| `StagedRuns.RunWithinLimit` | internal/drive/download.go:519-563 | a run in which no job raced keeps the limit, although workers, cancels and sweeps write between the usage query, the listing, each deletion and the insert |
| `StagedRuns.RaceOpensIff` | internal/drive/download.go:231-281 | a job comes to race exactly when a cancel whose lookup came before the present worker registered marks the row after it has started, also if that worker was resumed, when a status is reported over a live worker, or when an ended job is reported as running |
| `StagedRuns.RaceExceedsLimit` | internal/drive/download.go:246-281 | the bound is attained: a run ends with twice the limit in use |
| `StagedRuns.EvictedRaceExceedsLimit` | internal/drive/download.go:530-555 | it is also attained with no raced row in the table: the worker stores its path between the usage query and the listing, and its row is deleted and subtracted although it was never counted |
| `StagedRuns.StepKept` | internal/drive/download.go:524-563 | every single query or write keeps the invariant behind it: makeRoomFor's own count, with what raced and is gone, covers the rows not yet decided and the listed ones at their listed size |
| `StagedRuns.CancelledStays` | internal/drive/download.go:231-261 | over whole runs, no late write of a worker, sweep, resume or restart makes a cancelled job anything but expired, until its row is gone; only a client's report could |
| `StagedRuns.JobAfter` | internal/database/downloads.go:84-182 | what any event makes of one job's row: it goes only when deleted or evicted, each status is written by its own events alone and only from the statuses that allow it, path and expiry are stored and cleared together |
| `StagedRuns.UndisturbedIsReady` | internal/drive/download.go:275-467 | a worker that no one stops brings its job from pending to ready, with the copy kept until the given time, and changes no other row |
| `StagedRuns.EvictionsMakeRoom` | internal/drive/download.go:540-555 | with nothing in between, the eviction events leave the rows and the count that MakeRoomFor leaves |
| `StagedCache.MakeRoomFor` | internal/drive/download.go:524-563 | for whatever count and list it was given, deletes the shortest run of candidates that makes the file fit by its own count, skipping rows that are gone and never counting below zero, and refuses only when all of them are not enough |
| `StagedCache.SpentIsUsage` | internal/drive/download.go:530-555 | when count and list are those of the rows themselves, that count is the usage of what is left |
| `StagedCache.Sweep` | internal/drive/download.go:567-629 | expired copies and finished leftovers lose their bytes, row by row as listed; then the least recently used of the surviving copies go, each only while usage was above a limit that is set, until it is within the limit or no copy is left; otherwise nothing is deleted |
| `StagedCache.SweepExpired` | internal/drive/download.go:590-612 | the first pass, with usage recounted |
| `Handles.HandlesBelong` | internal/drive/source.go:154-258 | every request presents a hash and a reference minted for the account that sends it, and a row's handle belongs to its recorded account |
| `Handles.StepSameDocumentIff` | internal/drive/source.go:154-258 | a step keeps every handle at hand one of its own document exactly when it stores no segment again, as another message, that a cache entry or a stream still open knows of; streams close once their calls have ended |
| `Handles.RequestsFitDocuments` | internal/drive/source.go:154-258 | so in every run of such steps, reading, closing, evicting, storing again and reading included, each request presents a handle of the very document it asks for |
| `Handles.BeginEffect` | internal/drive/source.go:200-217 | a call settles on what its stream has learned, else on the account's cache entry, else on the stored handle if the account stored it; without any of them it cannot send before it has refreshed |
| `Handles.RefreshEffect` | internal/drive/source.go:219-258 | a refresh leaves the fresh handle with the call, with the stream that fetched it and in the cache; a stream that shared another's refresh forgets its own |
| `Handles.LearnEffect` | internal/drive/source.go:154-258 | a stored row takes over the file reference that worked exactly when it is still the account's own, and never the access hash; ending, closing and evicting touch nothing else |
| `Handles.StaleHandleExample` | internal/drive/source.go:200-222 | after a re-upload a new stream presents the old document's cached handle |

## Left out

- Telegram failures: sends, edits and deletes succeed; the log-and-continue branches after a failed caption edit are not modelled.
- `path.Clean` and the rest of CleanPath: operations take paths that are already clean.
- Plugin hooks, audit, events, permissions and scopes around every operation.
- Channel ids, directory owners, MIME types, timestamps and the account of a rebuilt segment: captions do not carry them.
- Names that are not valid UTF-8, and captions whose decoded directory name is empty of meaning as a path component, such as one with a slash: `Rebuild.RebuildIndex` may then refuse to write.
- Deleting a user account, which clears owners in the index but not in captions.
- Refreshing captions below a renamed directory runs in the background; here it is part of the operation.
- Tree.DirTable.Update: judges the unique path index on the table after each UPDATE, while SQLite checks it row by row; with a case twin dragged along, a row may meet a path that is only about to change, and the code then refuses what the model accepts. Without one no order of rows meets a stored path: `Tree.SwapNeverCollides`. The same goes for DriveService.Service.RenameDir and the outcomes of Rename and Move.
- Rollback of a batch rename that fails: the model ends where the failing rename leaves the tree.
- The drawing of temporary names: they come in as a list that is new to the drive.
- BatchRename.Execute: states nothing for nested sources, temporary names that are not new, or directories dragged along by `LIKE`, because there renames hit other entries.
- BuildTree.RebuiltChained: leaves out records that claim the reserved id while a recovery folder is made, because the folder's row then overwrites theirs; the same goes for BuildTree.RebuiltLinked and Rebuild.RebuildSucceeds.
- Recovery.RecoveredCaptionTells: does not say that the rebuild differs when only the name, the directory or the owner is misread, because renaming duplicates and clearing unknown owners may happen to restore them.
- The operations carry their directories, files and captions as values of one state field, so aliasing between rows is not captured.
- Reading waiters' channels, contexts and timers as such: a step of the model is one critical section or one database write.
- DownloadSession.SlotSafe: does not state that an idle session ends, because a joiner cancelled after stopping the timer leaves none armed.
- Reader.File.Read: states nothing after a read has failed and before the next Seek to another offset.
- What the readahead window costs or saves; only where a window ends is modelled.
- Loading used bytes from the database, and persisting them.
- Waiting for an account or for the next quota day: a call of acquire may retry or fail at any time.
- Races of Complete, Abort and CancelUpload, which write the status unconditionally.
- Changing the cache limit during a run of staged downloads. Database errors that make makeRoomFor skip a row are events of `StagedRuns`, but not part of the method `StagedCache.MakeRoomFor`.
- Files on disk in the staged cache, orphan directories, and clients of a cached copy.
- Datacenter numbers of documents, and expiry times of cached handles, which may be dropped at any time.
- HTTP, WebDAV, authentication, settings, sessions and the plugin store.

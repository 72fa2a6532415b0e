# FileNest backend: a verified model

This project models the core of the FileNest Python backend (`backend/app`) in Dafny and proves what it
keeps over every input, every run and every interleaving. Check it with `dafny verify dfyconfig.toml`.

## What is modelled

**From a committed upload to its outcome.** `Delivery` is a state machine of the whole path: service
transactions commit a file row together with an outbox row; any number of outbox workers lock a batch, send
it row by row and then commit or roll back; the stream redelivers whatever is not acknowledged; handlers read
the status, run the stages, commit an outcome with its event, or fall through to `_mark_failed`, which is a
transaction of its own. Each of these is a separate step, so crashes, redeliveries and overlapping runs are
ordinary interleavings. `DeliverySafety` holds the invariants, `DeliveryTheorems` the safety results,
`DeliveryProgress` says which files can still leave status `processing`, `DeliverySettles` that without further
failures every schedule settles every file, `DeliveryOnce` when consumption is idempotent, and `DeliveryRepeats`
exactly when it is not. `Pipeline`, `Outbox` and `FileServices` give the programs themselves as methods over mutable
tables, proved against their specification; `PipelineInProtocol`, `OutboxInProtocol` and
`ServicesInProtocol` relate those tables to the protocol's state and prove that every ending of a run, of an
outbox cycle and of a service transaction is a sequence of the protocol's steps with that effect.

**Multipart assembly.** `Assembly` is the reference: the listed parts' bytes in PartNumber order. `S3`,
`Azure` and `Gcs` are the three providers. The GCS bucket is a class with a fault model: it answers a given
number of requests and then fails, and the request that fails may have taken effect. The 31/32-way compose
loop is proved equal to the reference, and every intermediate failure leaves either all parts or the right
final object. `GcsUploads` says what a completion or an abort leaves of its own upload and that it leaves all
others alone; `GcsOverlap` runs two completions of one upload at the same time, as a state machine over their
requests. `FileServices` puts the multipart service's transactions on top of each provider.

**Folders.** `FolderPaths` has the tree invariant over materialised paths and the walk along a path;
`Folders` the table and its writers, including the second copy of the walk in the upload-token service.

**Token MIME patterns.** `MimePatterns` proves the syntactic coverage test equal to inclusion of the two
pattern languages, and exactly where it is not.

**Supporting machines and codecs.** `Versions` (version history), `Cors` (the origin cache under concurrent
lookups), `Csv` (comma-separated columns), `Subjects` (event subjects and the signed text), `Webhooks`
(delivery attempts by interleaved tasks of a handler that may die), `WebhookOverlap` (several handlings of one
message at once), `Text` (the string functions the others share), `Options` and `Sequences` (an option type,
sequences without repetition).

## What the proofs found

- A file can stay in status `processing` for ever: if the stages raise and the transaction of `_mark_failed`
  then fails too, the exception is swallowed and the message acknowledged. `DeliveryProgress.StuckExactly`
  says which files are in that state; without such a failure every processing file is owed a run. The
  re-queueing recovery that comments in `pipeline.py` and `main.py` mention does not exist in the code.
- Idempotence fails in two ways. Two overlapping handlers of one message record two outcomes
  (`DeliveryRepeats.OverlapGivesTwoOutcomes`): the status check protects only against runs that have finished.
  While status reads do not raise, a file out of processing can get a further outcome exactly when some handler of
  it is past its read (`DeliveryRepeats.RepeatsExactly`), and once its newest upload has an outcome nothing but an
  overlap brings that about (`DeliveryRepeats.RepeatNeedsOverlap`). And a single redelivery whose status read
  raises turns a ready file into a failed one (`DeliveryRepeats.ReadFailureGivesTwoOutcomes`), because
  `_mark_failed` does not look at the status; `DeliveryRepeats.RecordsExactly` says when any further outcome is
  possible at all.
- An abort of a GCS upload whose completion failed leaves intermediate compose objects behind exactly when more
  than 32 parts were listed, the first 31 of them were there, a request took effect and, if all parts were there,
  the last request did not; or when an earlier try had left one (`GcsUploads.CompleteThenAbort`). Listing one part
  that was never uploaded is enough, without any failure of the bucket (`GcsUploads.LeakOfMissingPart`).
- A failed completion on GCS can be repeated with success exactly when the new list names only parts that were
  there and that the first call had not deleted (`FileServices.Database.CompleteAgain`). It had deleted some if its
  commit was lost, or if its cleanup was cut short after the first deletion; then every later list that names one
  of them is refused until that part is uploaded again, although the object is right
  (`FileServices.Database.Stranded`).
- Two completions of one GCS upload that run at the same time share the names of their intermediates. Whatever
  either of them writes is right, in every interleaving, exactly when their lists agree byte for byte on every
  intermediate both write, or neither has all its parts (`GcsOverlap.RightExactly`); the same list twice is safe,
  and two lists of more than 32 parts that begin with different bytes are not (`GcsOverlap.WrongExample`). Nothing
  in the service keeps two completions of a session apart.
- Nothing in the service keeps a client from aborting an upload it has completed either. S3 refuses that, GCS keeps
  the object, and Azure deletes it from under the version that the completion made
  (`FileServices.Database.CompleteThenAbortOnAzure`); file and session end up failed and aborted with GCS and Azure.
- `ensure_path` and the upload-token service raise for exactly those paths of which some prefix names several
  folders (`FolderPaths.RaisedExactly`); duplicates elsewhere do no harm. Of the operations modelled only
  `create_folder` makes them.
- The token MIME test lets a pattern without a slash through when the project allows `<pattern>/*`
  (`MimePatterns.UnsoundExactly`), and rejects some patterns with several slashes that are covered
  (`MimePatterns.StrictExample`); `MimePatterns.CoverageAgreesExactly` says over all patterns when it is right.
- A subscription to an event whose name contains a comma, which the request schema accepts, is stored as
  something else (`Csv.StoredSubscription`).
- Every version of a file names the same object, size and type, because nothing but a restore ever writes
  them and the key depends on the file id alone (`Versions.VersionsShareOneObject`). The docstring of
  `get_version_download_url` promises the bytes of the time the version was made; the code does not.
- The CORS cache is at most 60 seconds stale exactly for lookups that themselves take less than 60 seconds
  (`Cors.FreshExactly`). The docstring of `_get_allowed_origins` speaks of an empty list for an empty column;
  the code returns None for it, and the model follows the code.
- Overlapping handlings of a webhook message do not disturb each other's attempts, but an endpoint can accept the
  message once for each of them (`WebhookOverlap.OneSuccessEach`).
- The webhook module's comment gives a delay for attempt 3; the code never uses the third entry.

## Assumptions

- Service transactions, `_mark_failed` included, are atomic and serial with respect to one another; the
  programs read and write the rows the source names and nothing else.
- Ids the database or the provider draws (UUIDs) are fresh. They are natural numbers where only identity
  matters; an upload id contains no slash.
- S3 accepts a part list only if part numbers strictly ascend and every ETag matches; Azure commits a block
  list only if every block is there and refuses a block id of another length; GCS compose takes 1 to 32
  existing sources. Object operations are atomic. S3 forgets an upload id when it is completed or aborted; Azure
  finds no blob under a key before a block list is committed.
- The storage behind a session is the one its key and upload id name. Requests to S3 and Azure are answered; the
  GCS bucket may stop answering.
- `strip` and `lower` act on the characters of Latin-1 white space and on ASCII letters.
- Delivery rows of a webhook attempt commit.

## Model

| member | source | states |
|---|---|---|
| `DeliveryTheorems.OutboxConservation` | `backend/app/core/messaging.py:160-203` | over every run with any number of workers, a row's copies in the stream are 1 if published, 1 if sent in a still open batch, plus its rolled-back sends; nothing is fabricated, nothing published is unsent, and an unpublished unlocked row can be fetched again |
| `DeliveryTheorems.OpenBatchesDisjoint` | `backend/app/core/messaging.py:180-188` | no row is ever in two workers' open batches |
| `DeliveryTheorems.StatusIsReplay` | `backend/app/processing/pipeline.py:142-231` | in every reachable state, overlapping runs included, a file's status is the replay of its committed events exactly when no multipart abort is the last word on it (or the replay says failed anyway) |
| `DeliveryTheorems.ProcessingFilesAreOwed` | `backend/app/workers/processing.py:87-124` | in every interleaving in which no transaction of `_mark_failed` is lost, an undeleted processing file has an unpublished upload row or an unacknowledged message no handler has finished with |
| `DeliveryTheorems.LiveUnlessSwallowed` | `backend/app/processing/pipeline.py:63-75` | without that assumption: the obligation is live exactly when the newest upload is unpublished or one of its messages was not swallowed by a failed `_mark_failed` |
| `DeliverySafety.InvRun` | `backend/app/core/messaging.py:160-203` | every step of services, workers and handlers keeps well-formed locks, conservation, the status law and the processing obligation |
| `DeliveryProgress.OutcomeStillPossible` | `backend/app/workers/processing.py:87-124` | from any reachable state a processing file with a live upload can still reach any outcome by worker and handler steps alone |
| `DeliveryProgress.StuckExactly` | `backend/app/processing/pipeline.py:214-238` | a processing file can leave that status without another API call on it exactly when it is not forgotten: some upload row unpublished, some message unacknowledged or some handler still at work |
| `DeliveryProgress.SpentForever` | `backend/app/processing/pipeline.py:214-238` | a file whose uploads are all published and acknowledged, with no handler at work, is changed by no later step not aimed at it |
| `DeliveryProgress.ForgottenForever` | `backend/app/processing/pipeline.py:214-238` | so a file in processing in that state stays in processing |
| `DeliveryProgress.ForgottenReachable` | `backend/app/processing/pipeline.py:214-238` | such a state is reachable: stages raise, `_mark_failed` loses its transaction, the message is acknowledged |
| `DeliverySettles.WorkFalls` | `backend/app/workers/processing.py:87-124` | every step in which no handler or worker dies and no transaction is lost, a redelivery only of a message no handler has, leaves less work, events it adds included |
| `DeliverySettles.EveryScheduleSettles` | `backend/app/workers/processing.py:87-124` | from any reachable state every schedule of such steps is finite, and where it can go no further the only undeleted files in processing are the forgotten ones, none if no transaction of `_mark_failed` was lost |
| `DeliverySettles.RestExactly` | `backend/app/core/messaging.py:160-203` | no such step is left exactly when every row is published, every upload message acknowledged, no transaction open and no handler at work |
| `DeliverySettles.CanComeToRest` | `backend/app/core/messaging.py:160-203` | some such schedule gets there from any state that keeps the invariant |
| `DeliveryOnce.AtMostOneOutcomePerUpload` | `backend/app/processing/pipeline.py:85-96` | if handlers of one file do not overlap and none of its status reads raises, every outcome of that file answers an upload no earlier outcome answered, whatever is redelivered and whatever happens to other files |
| `DeliveryOnce.ExactlyOneOutcome` | `backend/app/processing/pipeline.py:85-96` | then a settled newest upload since which nobody has confirmed, restored, aborted or deleted the file has exactly one outcome after it |
| `DeliveryOnce.LaterRunsChangeNothing` | `backend/app/processing/pipeline.py:90-96` | redeliveries for a file that is not in processing, with no handler past its read and no raising read of that file, change neither its row nor its events |
| `DeliveryRepeats.RepeatsExactly` | `backend/app/processing/pipeline.py:85-96` | while its status reads do not raise, a file that is not in processing can get another outcome without an API call exactly when some handler of it is past its read of the status |
| `DeliveryRepeats.RepeatNeedsOverlap` | `backend/app/processing/pipeline.py:85-96` | if moreover the newest upload has an outcome already, a run after which that can happen has overlapping handlers of the file |
| `DeliveryRepeats.RecordsExactly` | `backend/app/processing/pipeline.py:63-75` | with raising reads, exactly when some upload of it is unpublished or unacknowledged or some handler is at work on one |
| `DeliveryRepeats.OverlapGivesTwoOutcomes` | `backend/app/processing/pipeline.py:87-96` | two deliveries of one message that both read `processing` record two outcomes |
| `DeliveryRepeats.ReadFailureGivesTwoOutcomes` | `backend/app/processing/pipeline.py:214-231` | one redelivery of a recorded file, alone, whose status read raises: the ready file becomes failed, with a second outcome |
| `Events.OutcomesBounded` | `backend/app/processing/pipeline.py:142-212` | a log whose outcomes each answer an upload never has more outcomes than uploads, and one fewer while an upload is unanswered |
| `Pipeline.RunStages` | `backend/app/processing/pipeline.py:125-140` | the stage loop's locals are the judgement of the first stage that does not pass, and the category is the last one returned by a stage that ran |
| `Pipeline.Database.Execute` | `backend/app/processing/pipeline.py:77-212` | either nothing is committed and an exception leaves, in exactly the listed cases, or outcome and event are committed together |
| `Pipeline.Database.Run` | `backend/app/processing/pipeline.py:51-75` | nothing is raised, and an active file is in processing afterwards exactly when `_mark_failed` was needed and lost its transaction |
| `Pipeline.Database.Process` | `backend/app/processing/pipeline.py:51-212` | a whole run with the stages the project's flag gives: files that are missing, deleted or out of processing stay as they are; with reads and transactions holding, an enabled scan that does not pass gives status quarantined and `file.quarantined`, otherwise a raising stage or a MIME check failing with a reason gives failed and `file.processing_failed`, otherwise ready and `file.ready` |
| `Pipeline.ReadyMeansScanned` | `backend/app/processing/pipeline.py:101-160` | whatever fails, a run takes a file from processing to ready only if the scan is off or passed, and quarantines only what was scanned and did not pass |
| `Pipeline.OutcomeOfStages` | `backend/app/processing/pipeline.py:125-212` | the status, the event and the category after a run, for every combination of stage answers |
| `Pipeline.VerdictOfStages` | `backend/app/processing/pipeline.py:115-140` | which stage answers give quarantined, failed, ready or an exception: an enabled scan speaks first, and a failing MIME check counts only if it gives a reason |
| `Pipeline.CategoryExactly` | `backend/app/processing/pipeline.py:114-147` | a category is determined exactly when every stage passed |
| `PipelineInProtocol.RunIsProtocolSequence` | `backend/app/processing/pipeline.py:51-238` | an uninterrupted run is one of the protocol's handler sequences and has its effect on files and events |
| `Outbox.OutboxWorker.PollAndPublish` | `backend/app/core/messaging.py:160-203` | success: every row of the batch is in the stream once, in order, under its own subject and with its own payload, and exactly the batch is marked; otherwise the table is as it was and the rows up to the refused one are in the stream, that one included if the stream stored it |
| `Outbox.SendBatch` | `backend/app/core/messaging.py:197-200` | the loop sends the rows in order, each under its subject and with its payload, until the first refusal |
| `Outbox.BatchExists` | `backend/app/core/messaging.py:180-188` | the query's answer (oldest unpublished unlocked rows, at most the limit) always exists |
| `Outbox.CycleShrinks` | `backend/app/core/messaging.py:160-203` | one successful cycle takes exactly min(batch size, backlog) rows off the backlog |
| `Outbox.DrainedExactlyWhen` | `backend/app/core/messaging.py:160-203` | the backlog of n rows is empty exactly from the ceil(n / size)-th successful cycle on |
| `Outbox.SentOnceInOrder` | `backend/app/core/messaging.py:180-200` | over the cycles each backlog row is sent at most once, in created_at order |
| `Outbox.LeftOver` | `backend/app/core/messaging.py:197-203` | what is left in the backlog is exactly what was not sent |
| `OutboxInProtocol.CycleInProtocol` | `backend/app/core/messaging.py:179-203` | every ending of a cycle (empty query, commit, refused publish that the stream stored or not, lost commit) is a sequence of the protocol's steps that changes table and stream as the program does |
| `OutboxInProtocol.CycleIsProtocolSequence` | `backend/app/core/messaging.py:179-203` | lock, one send per row, and commit, failed send or rollback are enabled and leave nothing locked; what was sent is published or counted as undone |
| `OutboxInProtocol.DrainInProtocol` | `backend/app/core/messaging.py:160-203` | the cycles that drain a backlog are one run of the protocol, which adds to the stream what they sent |
| `OutboxToConsumers.ConsumersReceive` | `backend/app/core/messaging.py:197-200` | of rows published under their tenants' subjects, dot-free ids given, the processing consumer receives exactly the `file.uploaded` ones and the webhook consumer all but `file.upload.initiated`, reading back tenant and event; each message holds its row's payload |
| `OutboxToConsumers.DeliveredExactly` | `backend/app/workers/processing.py:64-70` | so the protocol can start a handler for a message exactly when it is not acknowledged and the processing filter accepts its subject |
| `Assembly.ClientOrderIrrelevant` | `backend/app/storage/s3.py:199-202` | the order the client lists the parts in has no influence on the assembled order |
| `Assembly.SortPartsSorts` | `backend/app/storage/s3.py:199-202` | the list sent to the provider ascends by PartNumber |
| `Assembly.SortPartsPermutes` | `backend/app/storage/s3.py:199-202` | it has the client's parts, none dropped or repeated |
| `Assembly.AssembledInOrder` | `backend/app/storage/s3.py:199-202` | the assembled bytes are the parts' bytes one after the other in list order |
| `S3.Upload.CompleteMultipartUpload` | `backend/app/storage/s3.py:189-211` | in whatever order the client lists the parts: accepted exactly when the upload is open, the list is not empty, names no part twice and every listed part was uploaded with that ETag; then the final object is the parts' bytes in PartNumber order, otherwise nothing changes |
| `Azure.Blob.CompleteMultipartUpload` | `backend/app/storage/azure.py:204-222` | the blob is the staged parts' bytes in PartNumber order, exactly when every listed part was staged |
| `Azure.Blob.StageBlock` | `backend/app/storage/azure.py:183-202` | blocks stay the uploaded parts under their ids; a part whose id has another length is refused |
| `Azure.BlockIdInjective` | `backend/app/storage/azure.py:163-165` | distinct part numbers have distinct block ids (base64, section 4 of RFC 4648) |
| `Azure.BlockIdLength` | `backend/app/storage/azure.py:163-165` | ids have the common length 12 exactly for part numbers above -10^8 and below 10^9 |
| `Base64.EncodeInjective` | `backend/app/storage/azure.py:163-165` | the encoding determines the bytes |
| `Base64.GroupMeans` | `backend/app/storage/azure.py:163-165` | four characters denote in base 64 the number that three bytes denote in base 256, by the alphabet of RFC 4648 |
| `Base64.TailMeans` | `backend/app/storage/azure.py:163-165` | likewise for a last group of two bytes or one, filled up with zero bits and padded |
| `Gcs.CompleteMultipartUpload` | `backend/app/storage/gcs.py:202-247` | success: the old bucket minus parts plus the final object with the parts' bytes in PartNumber order; failure: all parts intact, or the right final object written; which parts and intermediates are left either way; no request names more than 32 sources, and a success makes ceil((n-32)/30) + 1 of them; success, the deletions made and whether any intermediate was written, as functions of the bucket on entry and the requests answered |
| `Gcs.Collapse` | `backend/app/storage/gcs.py:230-238` | the loop terminates, touches only intermediate keys, and its sources stand for the parts |
| `Gcs.SourcesStandForParts` | `backend/app/storage/gcs.py:233-238` | composing the first sources at any turn yields the bytes of exactly the parts they stand for |
| `Gcs.ConcatIsAssembled` | `backend/app/storage/gcs.py:212-241` | that is the plain concatenation the other providers perform |
| `Gcs.KeysApart` | `backend/app/storage/gcs.py:170-172` | part, intermediate and final keys of an upload never coincide |
| `Gcs.CompleteTwice` | `backend/app/storage/gcs.py:230-247` | calling again after a failure at any request succeeds exactly when all parts were there and the first call succeeded or stopped before its first deletion; the final object is right in any case and nothing outside the upload is touched |
| `Gcs.RetrySound` | `backend/app/storage/gcs.py:230-247` | the rerun reads the same bytes despite leftover intermediates, or leaves the written object alone |
| `Gcs.DeleteKeys` | `backend/app/storage/gcs.py:222-228` | deletes exactly the listed keys; a key already gone is no failure |
| `Gcs.AbortMultipartUpload` | `backend/app/storage/gcs.py:249-265` | deletes exactly the objects under the part prefix, so every part of the upload; cut short, it deletes no others and changes no bytes |
| `GcsUploads.CompleteThenAbort` | `backend/app/storage/gcs.py:202-265` | over every bucket and list: after a failed completion and an abort an object of the upload remains exactly when more than 32 parts were listed, the first 31 were there, a request took effect and, all parts being there, the last one did not, or an intermediate of an earlier try had not been cleaned up |
| `GcsUploads.LeakOfOneRequest` | `backend/app/storage/gcs.py:233-251` | 33 parts and one answered request leave an object behind |
| `GcsUploads.LeakOfMissingPart` | `backend/app/storage/gcs.py:233-251` | so do 33 listed parts of which the last was never uploaded, with every request answered |
| `GcsUploads.CompletionLeavesOthers` | `backend/app/storage/gcs.py:233-245` | a completion, however it ends, leaves every part, intermediate and final object of any other upload as it was |
| `GcsUploads.AbortLeavesOthers` | `backend/app/storage/gcs.py:249-265` | so does an abort |
| `GcsOverlap.RightExactly` | `backend/app/storage/gcs.py:202-247` | over every interleaving of two completions of one upload, requests failing anywhere: what a final compose writes is its list's bytes exactly when both lists give the same bytes for every intermediate that both write, or neither list is complete |
| `GcsOverlap.AloneCompletes` | `backend/app/storage/gcs.py:230-245` | left to itself, with every request answered, a completion of the state machine ends in the state `Gcs.CompleteMultipartUpload` promises |
| `GcsOverlap.SameListAgrees` | `backend/app/storage/gcs.py:230-241` | so it is for twice the same list, and when one list has at most 32 parts |
| `GcsOverlap.FinalIsOneList` | `backend/app/storage/gcs.py:240-245` | then the destination is as it was or holds one list's bytes, at any time |
| `GcsOverlap.WrongExample` | `backend/app/storage/gcs.py:233-241` | two complete lists of more than 32 parts that begin with different bytes can write a wrong object |
| `GcsOverlap.NamesValid` | `backend/app/storage/gcs.py:213-235` | the names of every real upload meet what the rows above require of a session |
| `GcsKeys.PrefixMissesTemps` | `backend/app/storage/gcs.py:235-251` | the prefix an abort lists contains no intermediate object of any upload |
| `GcsKeys.PrefixMissesKeys` | `backend/app/storage/gcs.py:251-255` | and no file's own object |
| `GcsKeys.PartIsNotKey` | `backend/app/storage/gcs.py:170-172` | a part object is never a file's own object |
| `GcsKeys.TempIsNotKey` | `backend/app/storage/gcs.py:235` | nor is an intermediate object |
| `GcsKeys.PartKeyInjective` | `backend/app/storage/gcs.py:170-172` | a part object belongs to one destination, upload and part number |
| `GcsKeys.TempKeyInjective` | `backend/app/storage/gcs.py:235` | so does an intermediate object |
| `GcsKeys.PartIsNotTemp` | `backend/app/storage/gcs.py:170-235` | no part object is an intermediate one, of whatever uploads |
| `GcsKeys.PrefixSeparatesUploads` | `backend/app/storage/gcs.py:251-255` | listing one upload's prefix finds none of another upload's parts |
| `GcsKeys.StorageKeySlashes` | `backend/app/services/file.py:61-63` | every file's key has exactly two slashes, so the rows above that compare slash counts hold between any two files |
| `GcsKeys.StorageKeyParts` | `backend/app/services/file.py:61-63` | split at the slashes it gives organisation, project and file, in this order |
| `FileServices.Database.CompleteMultipart` | `backend/app/services/multipart.py:203-275` | with GCS: the database reports an upload complete only if the destination holds the listed parts' bytes; any failure leaves it unchanged, with the parts intact, the final object written, or the assembly done and only the commit lost; success and the parts deleted are functions of the list, the bucket and the commit; a success marks the session completed with the number of parts, adds a version exactly with versioning, keeps the content, and sets processing with `file.uploaded` or ready with `file.ready`, nothing else |
| `FileServices.Database.CompleteOnS3` | `backend/app/services/multipart.py:203-275` | with S3: complete exactly when session and file are found, the upload is open, every listed part was uploaded with its ETag, none is listed twice, and the commit holds; then the object is the parts' bytes in order, and the record changes as with GCS |
| `FileServices.Database.CompleteOnAzure` | `backend/app/services/multipart.py:203-275` | with Azure: likewise, when every listed part was staged |
| `FileServices.CompletionRecords` | `backend/app/services/multipart.py:229-275` | what the transaction of a completion records: session, version if versioning is on and none otherwise, status, event, and no other file |
| `FileServices.Database.LaterCompletions` | `backend/app/services/multipart.py:214-229` | while a listed part object is missing, no completion of the session succeeds, whatever the list, the flags and the bucket do |
| `FileServices.Database.CompleteAgain` | `backend/app/services/multipart.py:214-274` | after a completion that failed for whatever reason another one, with any list and a bucket that answers, succeeds exactly when it lists parts, all of them were there and the first had deleted none of them; with the same list, exactly when the first deleted nothing |
| `FileServices.Database.Stranded` | `backend/app/services/multipart.py:229-274` | after a lost commit or a cleanup cut short every later completion that lists a deleted part is refused, though the object is right |
| `FileServices.Database.AbortMultipart` | `backend/app/services/multipart.py:277-299` | with GCS, storage first; success: session aborted, file failed, nobody told, no object under the part prefix; failure: the database as it was and only part objects deleted; all other objects, the final one of a completed upload included, keep their bytes |
| `FileServices.Database.AbortOnS3` | `backend/app/services/multipart.py:277-299` | with S3: refused exactly when session or file is not found, the upload was completed or aborted before, or the commit is lost; the object stays |
| `FileServices.Database.AbortOnAzure` | `backend/app/storage/azure.py:224-235` | with Azure: refused only when session or file is not found or the commit is lost, and whenever both are found no object is left, committed or not |
| `FileServices.Database.CompleteThenAbortOnAzure` | `backend/app/services/multipart.py:285-299` | an upload completed and then aborted: a new version, and no object behind it |
| `FileServices.Database.ConfirmUpload` | `backend/app/services/file.py:255-314` | refused exactly for files that are not an active one of the caller's organisation and project; otherwise processing with `file.uploaded` or ready with `file.ready`, as the scan flag says; with versioning one more version with the file's content and the next number, without it none; content, sessions and all other files untouched |
| `FileServices.Database.RestoreVersion` | `backend/app/services/file.py:358-407` | refused exactly when file or version is not found; otherwise ready with `file.restored` and one more version, whose number is returned, and the content is the chosen version's, which the file had before |
| `FileServices.Database.DeleteFile` | `backend/app/services/file.py:439-451` | afterwards the file is not found and every other lookup answers as before; versions stay; one event |
| `FileServices.Database.InitUpload` | `backend/app/services/file.py:219-249` | a pending file with the size and type asked for, without versions, under a key of its own, with its event |
| `FileServices.Database.StartMultipart` | `backend/app/services/multipart.py:136-164` | the same with an open session, and nobody is told |
| `Versions.OneFileOneEvent` | `backend/app/services/multipart.py:245-297` | every operation concerns one file, and its status changes together with exactly one event that announces it, except that starting and aborting a multipart upload tell nobody and a deletion announces no status |
| `Versions.TenantsApart` | `backend/app/repositories/file.py:42-60` | whatever requests other organisations and projects make, in any number and order, a tenant's files keep their rows, versions and events |
| `Versions.OwnFilesOnly` | `backend/app/repositories/file.py:42-60` | a request that is not refused concerns a file of its own organisation and project |
| `ServicesInProtocol.ServiceIsProtocolStep` | `backend/app/services/file.py:255-451` | each service transaction is the protocol's atomic step on files and events |
| `Versions.VersionsNumbered` | `backend/app/services/file.py:274-284` | over every serial run of requests of any tenants version_count is the number of version rows and they are numbered exactly 1..n |
| `Versions.HistoryNeverRewritten` | `backend/app/services/file.py:382-390` | version rows are only ever added |
| `Versions.RestoreMatches` | `backend/app/services/file.py:369-390` | after a restore the file's key, size and type equal the chosen and the newest version's, and its count is the newest number |
| `Versions.VersionsShareOneObject` | `backend/app/services/file.py:255-407` | all versions of a file have the key, size and type of its first row, in every run |
| `Versions.KeysDiffer` | `backend/app/services/file.py:61-63` | different files never share an object, of whatever organisations and projects they are |
| `Folders.FolderTable.CreateFolder` | `backend/app/services/folder.py:65-92` | refused exactly for names that are blank or hold a slash and for parents not active in the caller's organisation and project; otherwise one row with the stripped name below that parent; keeps the tree, and paths unique exactly when no active folder had the new path |
| `Folders.FolderTable.EnsurePath` | `backend/app/services/folder.py:134-175` | raises, and rolls back, exactly when some prefix of the path names several folders; otherwise it returns the one folder a lookup of the path finds, a folder of the caller's organisation and project, adds exactly the missing segments there, changes no row and gives no path a second folder |
| `Folders.FolderTable.ResolveFolderPath` | `backend/app/services/upload_token.py:164-188` | the second copy promises the same |
| `Folders.FolderTable.DeleteFolder` | `backend/app/services/folder.py:248-277` | refused exactly while an active subfolder or file of the caller's organisation and project is inside, or the folder is not an active one of theirs; keeps the tree and unique paths |
| `Folders.FolderTable.GetByPath` | `backend/app/repositories/folder.py:101-121` | finds the one row with the caller's organisation and project and the path that is not deleted; absent exactly when there is none, raising when there are several |
| `FolderPaths.PathRebuilt` | `backend/app/services/folder.py:76-90` | in a tree the parent walk ends at a root and the names on it rebuild the stored path |
| `FolderPaths.ChainOfScope` | `backend/app/services/folder.py:76-90` | the folders on that walk begin at a root, each is the parent of the next, all are active and of the folder's organisation and project |
| `FolderPaths.NamesFromPath` | `backend/app/services/folder.py:150-156` | splitting the path gives back exactly those names |
| `FolderPaths.WalkKeepsTree` | `backend/app/services/folder.py:150-174` | whatever the tree holds, a walk that does not raise keeps it a tree, only adds rows, and ends at the folder with the path |
| `FolderPaths.ExistingExactly` | `backend/app/services/folder.py:155-160` | existing prefixes are closed under shortening |
| `FolderPaths.RaisedExactly` | `backend/app/repositories/folder.py:101-121` | in any tree the walk raises exactly when some prefix of the path names several folders |
| `FolderPaths.WalkSeesScope` | `backend/app/repositories/folder.py:113-119` | rows of other organisations and projects have no influence on a walk: two tables that agree on one tenant's rows give it the same reply and the same new rows |
| `FolderPaths.WalkAddsNoDuplicate` | `backend/app/services/folder.py:155-172` | whatever the table holds, a walk gives at most free paths their first folder |
| `FolderPaths.WalkCreatesMissingSuffix` | `backend/app/services/folder.py:155-172` | along a path no prefix of which names several folders it inserts exactly the missing suffix, one level at a time |
| `FolderPaths.InsertedRow` | `backend/app/services/folder.py:163-172` | the i-th new row is the prefix ending in the i-th missing segment |
| `FolderPaths.WalkIdempotent` | `backend/app/services/folder.py:134-175` | walking such a path again inserts nothing and ends at the same folder, the one a lookup finds |
| `Text.TrimExactly` | `backend/app/services/folder.py:150` | `strip("/")` takes every slash off both ends and nothing else |
| `FolderPaths.InsertKeepsUnique` | `backend/app/services/folder.py:84-90` | an insert keeps paths unique exactly when its path was free |
| `MimePatterns.NoneRejectedIff` | `backend/app/services/upload_token.py:76-82` | for one-slash patterns none is rejected exactly when every content type the token list accepts is accepted for the config list |
| `MimePatterns.CoverageAgreesExactly` | `backend/app/services/upload_token.py:54-73` | over all patterns and sets: in exactly which cases the test equals inclusion of the pattern's language |
| `MimePatterns.CoverageExact` | `backend/app/services/upload_token.py:54-73` | in particular it does for every pattern with exactly one slash |
| `MimePatterns.StrictExample` | `backend/app/services/upload_token.py:71-73` | a pattern with two slashes that is included and still rejected |
| `MimePatterns.InclusionDecided` | `backend/app/services/file.py:66-82` | inclusion of two infinite pattern languages is decided by a finite test |
| `MimePatterns.UnsoundExactly` | `backend/app/services/upload_token.py:71-73` | a covered pattern is really included exactly when it has a slash, is listed itself, or everything is allowed |
| `MimePatterns.UnsoundExample` | `backend/app/services/upload_token.py:71-73` | a concrete covered pattern that is not included |
| `MimePatterns.AllowedExactly` | `backend/app/services/file.py:66-82` | a content type is allowed exactly when some listed pattern, without its outer blanks, is the universal one, is the same text up to letter case, or ends in a slash and a star and the content type begins with the rest, up to case |
| `MimePatterns.ExactPattern` | `backend/app/services/file.py:72-78` | a pattern that is no wildcard allows exactly one text, up to case and outer blanks |
| `MimePatterns.CaseIrrelevant` | `backend/app/services/upload_token.py:51-64` | content types and patterns that differ in letter case only are treated alike by both tests |
| `MimePatterns.StoredPatterns` | `backend/app/services/upload_token.py:49-51` | for a column the config service wrote, the set is the patterns it was given, in lower case and without outer blanks |
| `Text.StripExactly` | `backend/app/services/project_config.py:43` | strip returns the text between the outer blanks, which that alone determines |
| `Text.LowerExactly` | `backend/app/services/file.py:72-74` | lower identifies exactly the texts that differ in the case of ASCII letters, and keeps what is no capital |
| `Cors.BoundedStaleness` | `backend/app/core/cors_middleware.py:39-76` | over every interleaving of lookups and changes an answer parses a row held after its lookup began less 60 seconds and no later than the answer |
| `Cors.FreshExactly` | `backend/app/core/cors_middleware.py:39-76` | answers of lookups of a given duration are always less than 60 seconds old exactly when that duration is below 60 seconds |
| `Cors.ChangePropagates` | `backend/app/core/cors_middleware.py:15-16` | a lookup begun 60 seconds or more after the project's last change answers with the current row |
| `Cors.LastChangeShows` | `backend/app/core/cors_middleware.py:56-62` | the current row is the one the project's last change wrote, none before its first |
| `Cors.OriginsCache.Begin` | `backend/app/core/cors_middleware.py:49-54` | answers without the database exactly while the project's last finished lookup began less than 60 seconds ago, and with what that one read |
| `Cors.OriginsCache.Finish` | `backend/app/core/cors_middleware.py:64-76` | whichever lookup finishes becomes the last finished one of its project, the others keep theirs |
| `Cors.ParseExactly` | `backend/app/core/cors_middleware.py:64-76` | the allow list is exactly the pieces between the commas without outer blanks, blank ones dropped; no restriction exactly when none is left |
| `Csv.RoundTripExactly` | `backend/app/services/project_config.py:39-50` | reading back gives the stripped list with blanks dropped (null when none remain) exactly when no kept item has a comma |
| `Csv.SplitFieldExactly` | `backend/app/services/project_config.py:46-50` | a column is read as null exactly when null or empty, and otherwise as the pieces between its commas without outer blanks, blank ones dropped |
| `Csv.NormalForm` | `backend/app/services/project_config.py:39-50` | storing what was read is idempotent |
| `Csv.SubscriptionAgreesExactly` | `backend/app/workers/webhook.py:69-80` | the worker's test agrees with membership in the decoded list, empty meaning all, exactly when the text is empty or decodes to something |
| `Csv.EventMatchesExactly` | `backend/app/workers/webhook.py:69-80` | a text subscribes to an event exactly when it is empty or a piece between its commas is the event's name, give or take outer blanks |
| `Csv.StoredSubscription` | `backend/app/services/webhook.py:32-41` | for the text the service stores, the worker delivers exactly the events asked for exactly when none of them contains a comma |
| `Subjects.ProcessingReceives` | `backend/app/workers/processing.py:64-70` | an event reaches the processing consumer exactly when it is file.uploaded and the ids have no dots |
| `Subjects.WebhookReceives` | `backend/app/workers/webhook.py:106-135` | the webhook consumer receives every event but file.upload.initiated, for dot-free ids, and parses back what was published |
| `Subjects.EventNamesDiffer` | `backend/app/services/file.py:242-247` | different events have different names, but for the two ways to become ready |
| `Subjects.EventNameIs` | `backend/app/processing/pipeline.py:148-196` | the names under which the services and the pipeline publish |
| `Subjects.SignedPayloadInjective` | `backend/app/workers/webhook.py:51-59` | the signed text determines timestamp and body |
| `Webhooks.DeliveryTable.DeliverWithRetry` | `backend/app/workers/webhook.py:186-272` | for any attempt bound and delay table the rows are numbered 1..k, all failed but possibly the last, with a retry time on exactly the failed ones before the bound, and success recorded exactly for an answer with status 200 to 299 |
| `Webhooks.DeliveredOrExhausted` | `backend/app/workers/webhook.py:203-272` | a delivery ends without raising exactly when it never needs a delay the table lacks; it succeeds at the first accepted attempt |
| `Webhooks.DeployedSchedule` | `backend/app/workers/webhook.py:40-48` | as deployed: one to three attempts, the second 30 seconds after the first, the third 60 after the second, ending delivered or exhausted |
| `WebhookOverlap.HandleOverlapping` | `backend/app/workers/webhook.py:127-184` | any number of handlings of one message at once, interleaved anyhow and dying anywhere: the rows fall apart into one list per matching webhook and handling, which says what it would say alone; a handling that acknowledges has ended all its deliveries, and one whose deliveries all get turns enough acknowledges |
| `WebhookOverlap.OneSuccessEach` | `backend/app/workers/webhook.py:203-272` | two successful deliveries to one webhook were made by different handlings |
| `Webhooks.Handle` | `backend/app/workers/webhook.py:127-184` | with the tasks taking turns in any order and the handler dying at any turn: an acknowledged message has every matching delivery ended, an unacknowledged one has each of them begun or ended, other webhooks get no row, and a handler that lives long enough acknowledges |

## Left out

- Progress of schedules in which handlers and workers keep dying, or the stream keeps redelivering what a handler already has: none is promised, and none is proved.
- More than two completions of one GCS upload at once, and an abort that runs beside one.
- The concurrency bound of the processing and webhook consumers (semaphore, task set): it only removes interleavings from those covered.
- Failures to commit a webhook delivery row, and a handler that naks before the webhooks are loaded.
- `TransactionalOutboxPublisher.publish` as an object: a service transaction adds its row to the log itself.
- Cursor and offset paging, list filters, tags, metadata, rename and move: they change no status, path or version.
- `init_upload` validation, token overrides and `count_in_flight`: each claim is settled by one branch, and the count takes no lock.
- The request schema's rejection of empty paths and segments before `ensure_path`: the walk is proved for every path.
- Upload-token fields other than the MIME list and the folder path.
- The filters on organisation and project in the lookups of the pipeline and the webhook worker: their tables hold one project's rows.
- HMAC, JSON encoding of payloads, HTTP, presigned URLs, encryption and the storage resolver.
- White space beyond Latin-1 and case folding beyond ASCII in `strip` and `lower`.
- Routers, dependencies, migrations, dashboard aggregates, frontends and SDKs.
- Outbox.DrainedExactlyWhen: stated for one worker with no failures and no new commits, as only then is a number of cycles promised.
- Versions.VersionsNumbered: stated for serial transactions, because the code takes no lock on version_count.

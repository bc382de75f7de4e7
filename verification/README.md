# A verified model of es3

es3 is a parallel client for S3. This project models the algorithms under its command line in Dafny
and proves what they promise:

- the **agenda**, a pool of threads that share a nested queue of tasks, a limit for each class of task
  and a bounded pool of memory segments (`Tasks`, `AgendaCore`, `Agenda`, `AgendaSystem`,
  `AgendaSafety`, `AgendaScripts`, `AgendaWeights`, `AgendaTermination`, `AgendaEndless`);
- the **transfer pipeline**: splitting a file into blocks, compressing them, gathering the pieces into
  numbered parts, completing the multipart upload, fetching byte ranges, writing them out of order and
  decompressing (`Bytes`, `Segments`, `Compressor`, `Uploader`, `Multipart`, `CompressedUpload`,
  `Downloader`, `Transfer`);
- the **synchroniser**: keys, filters, the merge of source trees, and the planning of uploads and
  downloads, with what the planned operations do in whatever order they run (`Connection`, `Trees`,
  `Merge`, `Filters`, `Plans`, `SyncUpload`, `UploadMirror`, `UploadPlan`, `SyncDownload`,
  `DownloadMirror`, `DownloadPlan`);
- the **pattern matcher** and **base64** (`PatternMatch`, `Globs`, `Base64`).

`Wrappers` and `Counting` are what they share.

## How the model is laid out

Code that changes state is modelled by methods over classes, arrays and loops, each tied to a function
or relation on values. Concurrency is modelled by step relations: each critical section is one step,
and the theorems speak of every sequence of steps from a start.
Where the source keeps a record for such steps, the record is a class whose ghost field `around` holds
the rest of the state, and its guarded sections are methods proved to be the steps. In the agenda the steps are claiming, sleeping,
leaving, starting an attempt, spawning, retrying, cleaning up, dropping a segment reference, looping,
and a spurious wake-up of the condition variable. A worker that has cleaned up but still refers to
segments is in a state of its own (`Draining`), because the source lets go of them at the end of the
loop body. The doubled `u_guard_t lock(m); lock.lock();` counts as one acquisition.

Operating system and server are parameters: reads and writes may be short in any way, requests may
succeed, warn or fail, the codec is any stream codec that obeys three laws, iteration over a map goes
in any order. The filters of a synchronisation are a predicate `keep` on paths; `Filters.CheckIncluded`
says which one.

## Results that say no

- With one segment in flight, which the command line lets through, the loop that plans the pumps never
  ends; it ends exactly from two on (`Uploader.PlanningEndsIff`). So runs of the agenda without spurious
  wake-ups are sure to end exactly from two on, too (`AgendaEndless.RunsEndIff`): at one there is a
  run that never ends (`AgendaEndless.EndlessHistory`), unless nothing is uploaded
  (`AgendaEndless.HistoriesWithoutUploadsEnd`). No state is stuck even then (`AgendaSafety.DeadlockFree`).
- The callback that collects compressed blocks can run twice, because the counter is looked at after
  the lock is released. It runs exactly once if and only if nobody else stood in that gap when the
  last result was filed (`Compressor.CallbackCount`, `Compressor.RaceRunsCallbackTwice`); with the look
  inside the guard it always does (`Compressor.GuardedCallbackRunsOnce`).
- A callback that runs twice schedules every part twice, and the count of finished parts is not reset.
  The completing request is still made at most once, but two copies of one part can fill the count, and
  the request goes out without the tag of another (`Multipart.SecondPlanningMissesAPart`). It names every
  part in every run exactly if the callback was not raced or there is one part only
  (`CompressedUpload.RequestCompleteIff`); of one run, exactly if the commits that filled the count were
  of different parts (`Multipart.CompletedAtMostOnce`).
- A warning from the completing request loses the object although every part task ends well
  (`Multipart.WarningLosesTheObject`).
- An upload with deletions mirrors the local tree exactly when every remote file below a shadowed
  directory is also a local file (`UploadMirror.MirrorIff`, `UploadMirror.ClashLeavesAnObject`).
- Where a remote level has a file and a directory of one name, and deletions are allowed, a download
  keeps the directory and the transfer of the file fails; but if there was a local directory of that
  name the file replaces it, with all that was downloaded into it (`DownloadMirror.DownloadOutcome`).
  So a download mirrors exactly when no such directory holds anything (`DownloadMirror.MirrorIff`).
- The downloader takes at most 9999 segments while the uploader makes up to 10000 parts, each in segments
  of the size of its own run, so some files can be stored and not fetched (`Transfer.RoundTrip`).
- Character ranges of patterns are half open, and a reversed range throws (`Globs.RangeOf`).

## Model

| member | source | states |
|---|---|---|
| Agendas.Agenda.constructor | es3/agenda.cpp:37-49 | a new agenda is the empty scheduler state |
| Agendas.Agenda.Schedule | es3/agenda.cpp:238-256 | the nested map goes on indexing exactly the queue with the new task inserted behind those of its ordinal; its class gets a counter; one sleeper is notified |
| Agendas.Agenda.GetSegments | es3/agenda.cpp:222-236 | a grant is all or nothing, of fresh and pairwise different segments, and is counted in full |
| Agendas.Agenda.TakeFrom | es3/agenda.cpp:126-138 | takes the first task of one bucket, leaves no empty nested map behind, raises both counters |
| Agendas.Agenda.BucketFor | es3/agenda.cpp:91-124 | finds a bucket for a class exactly when the queue has an eligible task of it: the class has room, the segments are free, and nobody queued asks for more, or else somebody asks for more than is free and nobody for less |
| Agendas.Agenda.ClaimTask | es3/agenda.cpp:75-148 | one pass of the claiming loop refines the claim of the scheduler state machine: quit, wait, or run the chosen task with as many fresh segments as it needs; it runs one exactly when some queued task is eligible, and then an eligible one |
| Agendas.Agenda.Cleanup | es3/agenda.cpp:150-168 | one worker less busy in the class of its task, one task more done, and one more failed exactly if it failed; everybody is notified exactly when no work is left |
| Agendas.Agenda.ReleaseSegment | es3/agenda.cpp:57-66 | one segment less in flight, one sleeper notified, nothing else changes |
| Agendas.PutIndexes | es3/agenda.cpp:249-251 | inserting into the nested map keeps it the index of the flat queue |
| Agendas.TakeIndexes | es3/agenda.cpp:126-135 | removing the head of a bucket keeps the index, with emptied levels erased |
| Tasks.SpawnLowersRank | es3/uploader.cpp:255-268 | a task only spawns tasks of strictly lower rank |
| Tasks.FirstInFirstOut | es3/agenda.cpp:249-251 | tasks of one ordinal queue up in the order in which they are scheduled, in every bucket |
| AgendaCore.ClaimedFacts | es3/agenda.cpp:91-144 | a claimed task was queued, is affordable, is removed from the queue once, and its class stays within its limit |
| AgendaCore.ClaimIsEligible | es3/agenda.cpp:82-124 | a claim succeeds exactly when a queued task is eligible: a class with room, free segments, and the greatest demand of all, or the least when the greatest cannot be met; it takes such a task of the first class in turn that has one; it quits exactly when nothing is queued or at work |
| AgendaCore.ClaimTakesFirst | es3/agenda.cpp:126-135 | of the tasks of that class and demand the first in the queue is taken, and the others stay in order |
| AgendaSafety.CountsStep | es3/agenda.cpp:97-157 | after every step the class counters are the numbers of busy workers, sum to the workers at work, and are within their limits |
| AgendaSafety.BusySplitsByClass | es3/agenda.cpp:137-156 | the busy workers of the three classes are all the busy workers |
| AgendaSafety.RefsDropped | es3/agenda.cpp:57-66 | dropping a reference frees a segment exactly when it was the last one |
| AgendaSafety.SegmentsStep | es3/agenda.cpp:222-236 | after every step the segments in flight are exactly those referred to by workers and queued tasks, and at most the maximum |
| AgendaSafety.AccountsStep | es3/agenda.cpp:150-168 | after every step each submitted task is, with its multiplicity, queued, at work or done; submitted = queued + working + done; failed <= done |
| AgendaSafety.QuiescenceStep | es3/agenda.cpp:82-88 | once there is no work it stays so, and only the cleanup of a task gets there |
| AgendaSafety.RestingPoolCanClaim | es3/agenda.cpp:106-124 | when nobody works or drains and tasks are queued, the largest-then-smallest search finds a task |
| AgendaSafety.WakesStep | es3/agenda.cpp:82-161 | no wake-up is lost: while there is work somebody is awake, without work nobody sleeps, and workers leave only then |
| AgendaSafety.StartIsSafe | es3/agenda.cpp:260-268 | starting the threads on any batch of tasks without segments establishes the invariant |
| AgendaSafety.StepIsSafe | es3/agenda.cpp:170-218 | every step of every worker keeps the whole invariant |
| AgendaSafety.ReachableIsSafe | es3/agenda.cpp:260-287 | after any sequence of steps from a start the whole invariant holds, finished or not |
| AgendaSafety.SegmentsConserved | es3/agenda.cpp:222-236 | in every reachable state the segments in flight are exactly those that somebody refers to, and at most the maximum |
| AgendaSafety.TasksAccounted | es3/agenda.cpp:150-168 | in every reachable state each submitted task is queued, at work or done, with its multiplicity; the class counters sum to the workers at work and each keeps the limit of its class |
| AgendaSafety.CountersCount | es3/agenda.cpp:163-167 | over every run the statistics grow by the tasks scheduled, the tasks finished, and the tasks finished without success |
| AgendaSafety.TenAttempts | es3/agenda.cpp:179-216 | in every run no task is attempted more than ten times between being claimed and being counted as done |
| AgendaSafety.ReturnsWhenDone | es3/agenda.cpp:260-287 | in every reachable state: once all threads have returned, every task queued at the start or scheduled since is done and every segment is back; what the agenda returns is the number of tasks that failed, on top of those from before |
| AgendaSafety.AwakeCanStep | es3/agenda.cpp:170-218 | a worker that is not asleep can always go on |
| AgendaSafety.DeadlockFree | es3/agenda.cpp:75-218 | a reachable state in which nothing but a spurious wake-up can happen is one where all threads have returned, every submitted task is done and every segment is back |
| AgendaWeights.StepFalls | es3/agenda.cpp:170-217 | every step but a spurious wake-up and a pump of no segments lowers the weight of the state lexicographically |
| AgendaTermination.NoInfiniteDescent | es3/agenda.cpp:180-214 | no sequence of weights descends for ever |
| AgendaScripts.PlanningAttemptEndsIff | es3/uploader.cpp:295-310 | the attempt that plans an upload schedules finitely many pumps if and only if at least two segments may be in flight |
| AgendaScripts.SuccessSchedulesAll | es3/agenda.cpp:182-186 | in every run a task counted as done without failing has scheduled all that its last attempt was to schedule, a planned upload pumps for one segment for each part |
| AgendaTermination.HistoriesEnd | es3/agenda.cpp:260-287 | with two segments in flight or more, a run that never ends has spurious wake-ups for ever; without them every run of the agenda ends, under any scheduling of its threads |
| AgendaEndless.HistoriesWithoutUploadsEnd | es3/agenda.cpp:260-287 | the same with one segment, when no upload or compression is among the tasks |
| AgendaEndless.EndlessHistory | es3/uploader.cpp:301-310 | with one segment in flight, one queued upload has a run without spurious wake-ups that never ends |
| AgendaEndless.RunsEndIff | es3/main.cpp:268-271 | all runs without spurious wake-ups end, from any start, if and only if at least two segments may be in flight; the command line only demands one |
| Bytes.PartsRoundTrip | es3/uploader.cpp:280-289 | the parts of an object concatenate to it and all but the last are full |
| Uploader.SkipTo | es3/uploader.cpp:132-146 | finds the piece and offset where a part starts, pieces of length zero included |
| Uploader.ReadInto | es3/uploader.cpp:164-180 | reads of any length fill exactly the wanted stretch of the segment |
| Uploader.FillSegment | es3/uploader.cpp:151-198 | a segment ends up with the next segment size bytes across pieces, or all that is left |
| Uploader.RunPump | es3/uploader.cpp:126-208 | a pump schedules one upload for each of its part numbers, whose segment holds exactly that part of the concatenated pieces |
| Uploader.PlanUpload | es3/uploader.cpp:276-310 | refuses files of too many parts and no others; the planned pumps mention each part number exactly once; each but the last has the pump's share, which is at most half the pool; below that there are no more pumps than threads for them |
| Uploader.ShareIsLeast | es3/uploader.cpp:295-299 | a pump's share is the least with which as many pumps as there are threads for them have room for all parts and one more, cut to half the pool |
| Uploader.PlanningEndsIff | es3/uploader.cpp:295-301 | the planning loop is left if and only if at least two segments may be in flight |
| Multipart.StepKeepsInv | es3/uploader.cpp:56-94 | every step keeps, however often a part number was scheduled: slots hold the server tags of exactly the parts committed; the request has been made exactly if the count has reached the number of parts, and named every part exactly if the commits up to then covered them |
| Multipart.CompletedAtMostOnce | es3/uploader.cpp:76-93 | over all interleavings and retries of any list of part tasks: at most one completing request; it names every part if and only if the commits that filled the count were of different parts; an object exactly if it named them all and did not fail, and then all parts in order |
| Multipart.RequestIff | es3/uploader.cpp:76-93 | over all runs, said of the steps alone: the request is made exactly if as many guarded sections as there are parts have run, and names every part exactly if the first so many were of different parts |
| Multipart.TenAttempts | es3/agenda.cpp:180-214 | over all runs a part task sends ten times at most; a fatal error while it sends ends it; without fatal errors it is given up only after ten attempts |
| Multipart.CompletedWhenAllEndWell | es3/uploader.cpp:86-93 | when all part tasks end well and there is one for each part or more, the request was made |
| Multipart.NamesEveryPart | es3/uploader.cpp:294-310 | with no number scheduled twice the request names every part |
| Multipart.SecondPlanningMissesAPart | es3/uploader.cpp:291-310 | after a second planning of two or more parts, a run whose request leaves a part out |
| Multipart.NamesEveryPartIff | es3/uploader.cpp:291-310 | the request names every part in every run if and only if the planning ran once or there is one part |
| Multipart.UploadContent.FinishPart | es3/uploader.cpp:76-93 | the guarded section of a part task is the committing step: it counts, files the tag, and makes the request with the tags filed, exactly when the count is full |
| Multipart.WarningLosesTheObject | es3/uploader.cpp:86-93 | a warning from the completing request, retried, leaves a finished part and no object |
| Multipart.AssembledIsTheFile | es3/connection.cpp:538-580 | with the parts of a planned upload the assembled object is the file, however often the planning ran |
| CompressedUpload.RequestCompleteIff | es3/compressor.cpp:164-165 | the request of a compressed upload names every part in every run of its part tasks if and only if the callback was not raced or there is one part |
| CompressedUpload.UnracedUpload | es3/uploader.cpp:255-268 | without a race, when all tasks end well: one request, naming every part, and the object exactly if it did not fail |
| Downloader.RangeIsPart | es3/downloader.cpp:144-155 | the requested inclusive range of a segment is that part of the object |
| Downloader.RangesPartition | es3/downloader.cpp:144-155 | every byte of an object is in exactly one requested range |
| Downloader.DoWrite | es3/downloader.cpp:100-116 | writes of any length put the segment at its offset and change nothing else |
| Downloader.DownloadContent.CountSegment | es3/downloader.cpp:68-98 | the end of a write task is the counting step: it counts under the lock, and the last one spares the temporary file for the decompressor or renames it |
| Downloader.DownloadContent.WriteSegment | es3/downloader.cpp:68-116 | a write task, from the first byte written to its final action, is the writing and counting steps of the download |
| Downloader.StepKeepsInv | es3/downloader.cpp:68-116 | every step keeps: each segment's bytes are right as far as it has got; the final action has happened exactly if all segments are counted |
| Downloader.Reassembled | es3/downloader.cpp:68-98 | over all interleavings of fetches, writes and retries the end is reached exactly when every segment is counted, once, and the file is the object then; a plain object is what is renamed to the target, a compressed one is handed on whole instead, and only then its file is spared |
| Downloader.LostIff | es3/agenda.cpp:180-214 | over all runs a segment is lost exactly when its request or its writing has failed ten times, or once for good |
| Compressor.SplitBlocks | es3/compressor.cpp:122-152 | blocks that partition the file in order, none empty, numbered; their size is the file's divided by the number of processors, or by that of minimal blocks in the file if it is less, and at least the minimal one; their number is that divisor or one more when the divisor is at most the block size |
| Compressor.CountNearEstimate | es3/compressor.cpp:128-135 | dividing by the quotient again gives the divisor or one more |
| Compressor.StepAdvances | es3/compressor.cpp:200-219 | one step inside a member succeeds, gives the next bytes of the block, never reads behind the member, and stands right afterwards, with a restart at the end of the member |
| Compressor.Decompress | es3/compressor.cpp:191-220 | a stream of members decompresses to the concatenated blocks for any lengths of reads |
| Compressor.FileCompressor.FileResult | es3/compressor.cpp:157-163 | the guarded section is the filing step, and the fields hold each filed name and size in its place |
| Compressor.FileCompressor.Finish | es3/compressor.cpp:164-165 | the look outside the guard is the looking step; a callback that runs is given what has been filed |
| Compressor.FileCompressor.OnComplete | es3/compressor.cpp:154-166 | a block task that nobody comes between is the filing and the looking step, and runs the callback exactly if it was the last |
| Compressor.StepKeepsInv | es3/compressor.cpp:154-166 | every step keeps: the count of pending blocks is exact, filed results are those of finished blocks, the callback count matches the looks since |
| Compressor.CallbackCount | es3/compressor.cpp:154-166 | the callback never runs before every result is filed, each by the task of its number; when all blocks succeed it runs at least once, and exactly once if and only if nobody stood in the gap |
| Compressor.GuardedCallbackRunsOnce | es3/compressor.cpp:154-166 | with the look inside the guard the callback runs exactly once when all blocks succeed, and never twice |
| Compressor.RaceRunsCallbackTwice | es3/compressor.cpp:164-165 | two blocks that both file before either looks run it twice |
| Transfer.Upload | es3/uploader.cpp:271-311 | planning, all pumps in any order and assembling by number give back the bytes of the pieces, or refuse for their number |
| Transfer.Download | es3/downloader.cpp:200-256 | fetching and writing all segments in any order gives the object, or refuses for their number |
| Transfer.RoundTrip | es3/compressor.cpp:122-220 | compress, upload, download, decompress is the identity on files, with segments of any size on either side; it refuses exactly when the compressed blocks need more parts than the uploader makes or more segments than the downloader takes |
| Connection.DeriveFile | es3/connection.h:36-46 | deriving a file name gives its key under the root: one slash between the two, the root's own if it ends with one |
| Connection.DeriveDirectory | es3/connection.h:36-46 | deriving a directory with a trailing slash or without gives the same keys below it |
| Connection.KeyInjective | es3/connection.h:36-46 | different paths of names never share a key |
| SyncUpload.ListedIsNamed | es3/connection.cpp:326-344 | in a listing every object is known under the key of its path |
| Filters.CheckIncluded | es3/sync.cpp:167-187 | with well-formed patterns: yes exactly without space, without an excluding match and with an including match if there are including patterns; an excluding match is never outweighed by an including one, whatever the patterns; throws only on a malformed pattern |
| Merge.CompatibleIffNoCollision | es3/sync.cpp:105-155 | on tidy trees the merge goes through if and only if no path is a file in one tree and a file or directory in the other |
| Merge.MergedHas | es3/sync.cpp:130-153 | the merged tree has the files of both, disjointly, each as it was, and the directories of both |
| Merge.MergedIsTidy | es3/sync.cpp:105-155 | merging tidy trees gives a tidy tree |
| Merge.MergeDir | es3/sync.cpp:139-153 | one subdirectory is merged into the one of its name or adopted as the same object; the others stay as they are |
| Merge.MergeToLeft | es3/sync.cpp:105-155 | in place: fails exactly on incompatible trees; otherwise the left object graph is the merged tree, writes nothing of the right one, and shares what it adopted |
| SyncUpload.DeletePossiblyRecursive | es3/sync.cpp:282-299 | schedules exactly the deletions of the files below that the filters name, each once; refuses subdirectories without leave, scheduling nothing |
| SyncUpload.UploadFile | es3/sync.cpp:313-347 | for one local file, exactly what is wanted at its name and below |
| SyncUpload.UploadDir | es3/sync.cpp:349-375 | for one local directory, exactly what is wanted at its name and below |
| SyncUpload.DeleteLeftOver | es3/sync.cpp:377-387 | for the remote names left over, exactly the deletions wanted |
| SyncUpload.ProcessUpload | es3/sync.cpp:301-388 | the plan is exactly one operation for each path whose fate asks for one |
| UploadMirror.OrderIsIrrelevant | es3/sync.cpp:313-387 | operations on different keys give the same bucket in every order |
| UploadMirror.NoKeyTwice | es3/sync.cpp:313-387 | for any trees, filters and flags no key is scheduled twice, neither for the same action nor for two |
| UploadPlan.PutIff | es3/sync.cpp:313-347 | for any trees, filters and flags: a path is uploaded if and only if it is a local file, not unsyncable and kept by the filters, and no remote directory of its name or file above it is in the way, or deletions are allowed |
| UploadPlan.DropIff | es3/sync.cpp:349-387 | an object is deleted if and only if deletions are allowed, the way to where the local tree ends goes past no remote file, and there it is no local file, or lies below in a directory and the filters keep it and any local file of the directory's name |
| UploadPlan.PlanIs | es3/sync.cpp:301-388 | the plan's operations are exactly these uploads and deletions, each under the key of its path |
| UploadPlan.ExcludedStays | es3/sync.cpp:318-321 | no file that is unsyncable or excluded is in the plan, and the object at the key of such a file stays as it was, in every order |
| UploadPlan.KeptArrives | es3/uploader.cpp:222-228 | a kept, syncable file whose way is free is in the plan; its object ends as its content, unless it had its set stamp and its size |
| UploadPlan.DeletedAre | es3/sync.cpp:282-299 | deleting a directory deletes exactly the objects below it that the filters keep, each once |
| UploadMirror.UploadOutcome | es3/uploader.cpp:211-227 | the bucket after the plan, in any order, key by key: put unless stamp and size match, dropped, or untouched; no other key changes |
| UploadMirror.NoFiltersMirror | es3/sync.cpp:167-187 | without filters and without spaces everything takes part |
| UploadMirror.MirrorFate | es3/sync.cpp:301-388 | in a mirroring upload a local file is put, any other remote file that is not overlooked is dropped |
| UploadMirror.MirrorIff | es3/sync.cpp:356-363 | the bucket ends with exactly the local keys if and only if every overlooked object is a local file |
| UploadMirror.TidyMirror | es3/sync.cpp:301-388 | without names that are both file and directory remotely the mirror is exact, and every object is the local content or has its stamp and size |
| UploadMirror.ClashLeavesAnObject | es3/sync.cpp:356-363 | a clash of a remote file and directory leaves an object behind |
| UploadMirror.SecondUploadIsQuiet | es3/sync.cpp:301-388 | uploading again, from a listing of a bucket that mirrors the local tree and is up to date, changes nothing |
| SyncDownload.LocalDisk.Remove | es3/downloader.cpp:16-20 | nothing is at the place or below it any more; every other place holds what it held |
| SyncDownload.ClearPlace | es3/sync.cpp:446-454 | afterwards the place is a directory; a file in its way is gone; nothing else changed |
| SyncDownload.DownloadDir | es3/sync.cpp:427-457 | for one remote directory, exactly the tasks wanted below and the directories needed |
| SyncDownload.ProcessDownloads | es3/sync.cpp:390-465 | makes exactly the directories gone into, touches nothing else, and schedules exactly one task for each path that wants one |
| DownloadMirror.Commute | es3/sync.cpp:390-465 | two tasks at different places commute on any disk, also when one is inside the other |
| DownloadMirror.DownloadsCommute | es3/sync.cpp:390-465 | for any trees, filters and flags every order of the scheduled tasks gives the same disk |
| DownloadMirror.NoTaskBelow | es3/sync.cpp:402-464 | on a tidy remote tree nothing is scheduled below the place of another task |
| DownloadMirror.FetchStores | es3/downloader.cpp:167-194 | a fetch whose directory is there, and whose place is free or about to be, leaves the remote content, unless a file is there, not about to be replaced, of the remote stamp, which is set, and size: that stays |
| DownloadMirror.DownloadOutcome | es3/sync.cpp:390-465 | the disk after a download, path by path, for any trees with clashing names, filters, flags and orders of the tasks: which file comes out, which directory stays, what is gone |
| DownloadMirror.MirrorIff | es3/sync.cpp:402-454 | with deletions and no filters every path ends as what it is remotely, in every order, if and only if no local directory has the name of a remote file that is also a remote directory with something in it |
| DownloadMirror.TidyMirror | es3/sync.cpp:390-465 | on a tidy remote tree the local tree becomes the remote one: directories, absences, and each file with the remote content, except exactly those whose stamp and size were the remote ones already, the stamp being set, which stay |
| DownloadPlan.EnteredIff | es3/sync.cpp:427-457 | a directory is gone into if and only if it is there remotely and no local file is at it or above it, or deletions are allowed |
| DownloadPlan.FetchIff | es3/sync.cpp:402-425 | a file is fetched if and only if it is there remotely, the filters keep it, and neither a local directory of its name nor a local file above it is in the way, or deletions are allowed; a local directory of its name is replaced |
| DownloadPlan.RemoveIff | es3/sync.cpp:459-464 | something local is removed if and only if deletions are allowed, nothing remote has its path, and the directory that it is in is there remotely |
| DownloadPlan.FetchesAre | es3/sync.cpp:402-425 | every fetch of a plan is of a remote file that the filters keep, at its place, and every such file whose way is free is in the plan |
| DownloadMirror.OutsideUntouched | es3/sync.cpp:390-465 | nothing outside the destination changes |
| DownloadMirror.NothingIsRemoved | es3/sync.cpp:390-465 | without leave to delete everything that was on the disk is still there, files as files and directories as directories |
| PatternMatch.MakeCharClass | es3/pattern_match.hpp:19-55 | the bitset is the class with half-open ranges and negation; throws exactly on an unfinished or reversed range |
| PatternMatch.MatchOne | es3/pattern_match.hpp:78-112 | one token other than a star: its length when it matches the character, zero when not, a throw when malformed |
| PatternMatch.TrySuffixes | es3/pattern_match.hpp:66-75 | tries the suffixes behind a star, shortest first, except the one at the current position |
| PatternMatch.PatternMatchImpl | es3/pattern_match.hpp:57-116 | the loop with recursion computes the backtracking search, and ends |
| PatternMatch.SearchIsMatching | es3/pattern_match.hpp:57-116 | on a well-formed pattern the search says yes exactly when some split of the string matches the tokens; on any other pattern it never says yes |
| Globs.LiteralPrefix | es3/pattern_match.hpp:109-110 | literal text in a pattern matches itself and leaves the rest of the string to the rest of the pattern |
| Globs.QuestionMark | es3/pattern_match.hpp:109-110 | a question mark matches exactly the strings of one character |
| Globs.Escaped | es3/pattern_match.hpp:100-108 | a backslash and a character match exactly that character |
| Globs.ClassOf | es3/pattern_match.hpp:81-98 | a class of single characters, a closing bracket in first place among them, matches exactly one of them |
| Globs.ClassWithout | es3/pattern_match.hpp:26-31 | a negated class matches exactly one character that is none of them |
| Globs.RangeOf | es3/pattern_match.hpp:36-46 | a range matches from its first character up to, but not including, its last; a reversed one throws at the first character it meets |
| Globs.UnfinishedThrows | es3/pattern_match.hpp:83-104 | an unclosed class, a class that ends with a dash and a lone backslash throw at the first character they meet, and only there |
| Globs.StarSkips | es3/pattern_match.hpp:66-75 | behind a star a well-formed pattern may match any suffix |
| Globs.EndsWith | es3/pattern_match.hpp:66-75 | a star and literal text match exactly the strings with that ending |
| Base64.FindIsPosition | es3/base64.cpp:32-40 | looking a character up gives its position in the alphabet, or the truncated mark for none |
| Base64.Base64Encode | es3/base64.cpp:58-93 | the loop and its padded tail compute the encoding |
| Base64.Base64Decode | es3/base64.cpp:100-139 | the buffered loop and its tail compute the decoding |
| Base64.EncodeLength | es3/base64.cpp:58-93 | an encoding has four characters for every three bytes begun |
| Base64.TailIgnoresAbsent | es3/base64.cpp:124-136 | the marks for absent characters never reach the output |
| Base64.RoundTrip | es3/base64.cpp:58-139 | decoding undoes encoding on every byte string |
| Base64.EncodedGroups | es3/base64.cpp:66-74 | each whole group of three bytes is, as a number in base 256, what its four characters are in base 64 |
| Base64.TwoLeftOver | es3/base64.cpp:76-92 | two bytes left over give three characters that carry their bits and zeros, and a padding character |
| Base64.OneLeftOver | es3/base64.cpp:76-92 | one byte left over gives two such characters and two of padding |
| Base64.DecodedAre | es3/base64.cpp:100-122 | of any string, ever encoded or not, as many bytes are decoded as the bits of its leading characters of the alphabet make, and each whole group is the same number |
| Base64.TailBits | es3/base64.cpp:124-136 | an incomplete last group gives the bits of its characters, the last few dropped |
| Base64.TestVectors | es3/base64.cpp:58-93 | the test vectors of section 10 of RFC 4648 |

## Left out

- curl, TinyXML, OpenSSL, request signing and the mapping of HTTP errors in connection.cpp: foreign calls, modelled as requests that succeed, warn or fail.
- The pagination of listings (es3/connection.cpp:278-356): it rests on the server's order and markers. The planning starts from a listing that is already there.
- zlib: the codec is abstract, with laws for one member of a stream; the compressing loop inside one block (es3/compressor.cpp:57-108) is `enc`.
- Walking the local directories (es3/sync.cpp:33-103), symbolic links, permissions, time stamps of files and temporary names. System calls fail only where the model says so.
- `check_mode` of the planning functions: every caller passes false.
- Filters with malformed patterns inside the planning: `keep` is total, while the source lets the exception end the planning.
- The three rounds of planning that the commands make (es3/commands.cpp:117-139) and what a failed round leaves behind.
- A transfer interleaved with other operations of the synchroniser in the middle: in UploadMirror and DownloadMirror each operation is one step.
- A local file that changes while it is uploaded, and a bucket that others write to.
- DownloadMirror.FetchStores: says nothing of the permissions set on the finished file; its time stamp is part of the content.
- AgendaTermination.HistoriesEnd: spurious wake-ups are not excluded, because the standard allows them; each is one pass of the claiming loop. That memory runs out while pumps of no segments pile up is not modelled either.
- Fairness between classes, thread priorities, the sleeps between tries, progress and statistics: the source promises nothing there, or they are output.
- Fixed-width arithmetic: sizes are unbounded integers. The source uses 64 bits and checks its narrowing casts.
- The size of the output buffer of the decompressor (es3/compressor.cpp:177): the laws of the codec allow any.
- Command-line parsing, the MIME table, the pool of curl handles, `trim`, `tobinhex`, `parse_path`: easy members that would dilute the model.

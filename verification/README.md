# Verified model of thumtoo

thumtoo is a media index: a client with a queue of thumbnail and tile jobs, readers for documents
and archives, and a store of tiles in SQLite. This project models its self-contained algorithms and
protocols in Dafny and proves what they promise. `dafny verify dfyconfig.toml` checks everything.

The files, one module each:

- The client. `tile_cells` (reply states of a cell batch), `job_queue` (what each critical section
  does to the queue) and `client_queue` (the same, imperatively, as the code runs it);
  `client_protocol` is the transition system over the critical sections of any number of host
  threads and workers, with history of replies, places and closings. `client_jobs_proof`,
  `client_cells_proof`, `client_steps_proof`, `client_runs`, `client_counts_proof` and
  `client_ledger_proof` are its invariants; `client_theorems` (jobs and replies), `client_drain`
  (counters, activities, drain) and `client_epochs` are the results over whole runs, `client_edges`
  the short runs that break what one would expect. `run_induction` is induction over a run.
- Archives. `archive` (window planner and resume cursor), `archive_batch` (one pass over a
  sequential archive and the releases of its jobs), `extract_cache` (the LRU cache).
- The decode gate. `decode_gate` (the flights list and its transition system), `decode_gate_proof`.
- Texts. `decimals`, `lexical_path`, `pipes`, `location`, `uri` (location URIs), `epub_layout`,
  `base64`, `remote_route`, `byte_codec`, `text_codec`.
- Pixels and digests. `handsum_scale`, `handsum_codec`, `hash_padding`, `streaming_hash`.
- The store. `store_tables` (keys, references, cascades, runs), `store_forget` (dry and real
  runs), `store` (the object), `content_id`, `cache_reader`.

Code that changes things in place is modelled by classes and methods whose contracts name a
specification function; the theorems are about those functions and about runs.

## What the code does not promise

Where a property one would expect is false, the model keeps the code and states when it holds.

- A cell marked CancelRequested between the claim of its batch and the worker's check of the stop
  flag is never answered (`ShutdownLosesAReply`); these are the only unanswered cells of any batch
  that has left queue and workers (`ExactlyOnceReplies`). On that path `drain` may also return
  while the worker still holds the job (`ShutdownEscapesDrain`).
  Only such jobs, and those with an empty uri, leave the count before their worker
  (`CountedOutEarlyIff`).
- A job with an empty uri is not counted by `drain` (`EmptyUriEscapesDrain`), and a size job that is
  released twice takes another one off the count, if any is counted (`RepeatEscapesDrain`); in runs
  without such claims and releases the count is exact throughout, in no others (`InflightExactIff`).
- An empty-uri pyramid never gives its slot back, and from then on no pyramid is ever claimed
  (`EmptyUriPyramidLeaks`, `LeakIsForever`); otherwise the slots are exact (`FocusExactIff`).
- A worker of a stopping client that claims a job with an empty uri leaves its activity open
  (`AbandonLosesAClosing`); otherwise activities are closed exactly once (`ActivityClosedIff`).
- A wrap of the 64-bit epoch counter over a queue with stamped jobs leaves epochs that are neither
  0 nor current; in all other cases they are (`EpochsCurrentIff`). No job is ever stale
  (`QueueStaysOk`).
- A size job of a sequential archive is released more than once exactly when its spelling occurs
  more than once among the first requests of its path (`ReleasesAreEarly`); with one spelling a
  member that needs a repeated request and a repeated entry (`ReleasedOnceIff`).
- The planned window may hold no interesting member (`PlanServesInterest`).
- An entry that grows in place can take the extract cache over its budget
  (`GrowthBreaksBudget`, `BudgetKeptIff`). Two members can share a key when the path of one archive
  and a newline begin the path of the other, and only then (`KeysCollideIff`, `KeysCanCollide`).
- A file location with an unnormalised base, such as /a/./b, or with a percent escape in it is not
  read back (`FileRoundTrip`, `DotIsNormalisedAway`). An https location with pipes but no archive or
  page marker is read back as one long base (`HttpsRoundTrip`, `HttpsImageBecomesBase`).
- A layout with a column gap but a single column, or out of the accepted ranges, does not survive
  (`EpubLayout.RoundTripIff`), though printed layouts always do (`Canonicalisation`).
- A text layer cut exactly before its trailer reads as a native layer (`TruncationIsNoticed`).
- The Handsum encoder writes the two detail coefficients of a tile in steps of 8, the decoder reads
  them in steps of 16 (`DetailIsDoubled`); only -128, 0 and 112 survive (`DetailSurvivesIff`).
- A dry run of `forget_uri_prefix` undercounts blobs that have several locators under the prefix
  (`PrefixDryRun`). Putting a tile with a region of another media, which the schema accepts, is
  what would let the index and the bulk table drift apart (`PutKeepsIff`, `PurgeInStepIff`);
  `put_tiles_to_store`, the one caller of `put_tile`, never does.

## Model

| member | source | states |
|---|---|---|
| `ClientTheorems.ExactlyOnceReplies` | src/client.cpp:1279-1346 | In every run of any number of host threads and workers: a cell has at most one reply, `replied` counts the answered cells, CancelRequested occurs only in batches a worker claimed, a batch that is dropped or completed has exactly one reply a cell, and a batch given up at shutdown lacks exactly the replies of the cells left in CancelRequested |
| `ClientTheorems.CancelHonoured` | src/client.cpp:1462-1486 | A cell that the worker finds cancelled is answered Cancelled or not at all, never produced; an Ok reply means the worker found the cell pending |
| `ClientTheorems.RepliesAreFinal` | src/client.cpp:1279-1303 | However a run goes on, an answered cell stays answered with the same reply |
| `ClientTheorems.JobInOnePlace` | src/client.cpp:2899-3074 | Every job ever queued is in exactly one place: the queue, one host that cancels it, one worker, or gone; no reordering loses or duplicates it |
| `ClientDrain.InflightExactIff` | src/client.cpp:3011-3021 | Throughout a run `inflight_` is the number of jobs that workers hold if and only if no claim takes a job with an empty uri to work on and no job is released a second time while any is counted |
| `ClientDrain.FocusIsHeldPlusLeaked` | src/client.cpp:3012-3015 | In every run whatsoever `focus_full_inflight_` is the number of held pyramids plus those that leaked their slot, and never exceeds the cap |
| `ClientDrain.FocusExactIff` | src/client.cpp:3477-3488 | After a run `focus_full_inflight_` is the number of held pyramids if and only if no worker ever gave up a pyramid with an empty uri |
| `ClientDrain.LeakIsForever` | src/client.cpp:2961-3015 | After one leaked slot, however the run goes on, no worker holds a pyramid and none ever claims one |
| `ClientDrain.CountersAreExact` | src/client.cpp:3011-3074 | Without empty uris and repeated releases both counters are exact after every run: `inflight_` is the number of all jobs that workers hold, `focus_full_inflight_` that of the held pyramids, at most the cap |
| `ClientDrain.ActivityClosedIff` | src/client.cpp:3021 | Throughout a run no activity id is closed twice and every job that left had its own closed, if and only if no worker of a stopping client claims a job with an empty uri |
| `ClientDrain.ActivityClosedOnce` | src/client.cpp:2530-2540 | Without empty uris an activity id is closed at most once in any run, and exactly once when its job has left the client |
| `ClientDrain.DrainedWorkersAreFree` | src/client.cpp:2490-2493 | When `inflight_` is exact and 0 and the client is not stopping no worker holds a job |
| `ClientDrain.DrainedHolder` | src/client.cpp:2490-2493 | When drain returns, stopping or not, and no host is cancelling, a job that has not left is with a worker that gives it up because the client is stopping |
| `ClientDrain.DrainedMeansDone` | src/client.cpp:2490-2493 | When drain returns after a run with an exact count, the client is not stopping and no host is in the middle of a cancellation, every job was completed or dropped, every activity is closed exactly once, and every requested cell has exactly one reply |
| `ClientDrain.CountedOutEarlyIff` | src/client.cpp:3477-3512 | In every state a step takes a job out of the count of its worker while the worker keeps it, if and only if that worker has just claimed the job and finds the client stopping or the uri empty |
| `ClientEdges.ShutdownLosesAReply` | src/client.cpp:3494-3512 | The shutdown exception happens: a run of eight steps after which a cell, marked between the claim and the check of the stop flag, has no reply and never gets one |
| `ClientEdges.ShutdownEscapesDrain` | src/client.cpp:3494-3512 | After six of those steps drain may return while a worker still holds the job: the job is counted out before it is answered and closed |
| `ClientEdges.EmptyUriEscapesDrain` | src/client.cpp:3011-3021 | A run of two steps after which queue and counter are empty while a worker holds a job |
| `ClientEdges.EmptyUriPyramidLeaks` | src/client.cpp:3477-3488 | A run of three steps that leaks the slot: whatever steps follow, `focus_full_inflight_` stays at the cap with no pyramid held, and none is ever claimed |
| `ClientEdges.AbandonLosesAClosing` | src/client.cpp:3021 | A run of three steps after which a worker has left with a job whose activity is never closed |
| `ClientEdges.RepeatEscapesDrain` | src/client.cpp:3233-3299 | For any two members of one archive: a run in which the first is requested twice and found twice, after which queue and counter are empty while a worker still holds the job of the second |
| `ClientEpochs.QueueStaysOk` | src/client.cpp:1503-1551 | In every run at most one of two queued jobs that supersede each other, no stale job in the queue, per-cell replies only on interactive batches; hence the loop over stale front jobs never finds one |
| `ClientEpochs.EpochsCurrentIff` | src/client.cpp:2569-2592 | Throughout a run every queued epoch is 0 or the current one, exactly when each wrap of the 64-bit counter finds no stamped job queued |
| `ClientEpochs.EpochsCurrentWithoutWrap` | src/client.cpp:2569-2592 | With fewer bumps than the counter has room for, every queued epoch is 0 or the current one |
| `ClientRuns.StepKeeps` | src/client.cpp:2594-2723 | Every critical section of every thread keeps the whole invariant of jobs, cells, aims and queue |
| `ClientJobsProof.StepConserves` | src/client.cpp:2899-3074 | Every step of every thread keeps each job in exactly one place |
| `ClientCountsProof.StepInflightIff` | src/client.cpp:3477-3593 | From a state with an exact count, a step leaves it exact if and only if it claims no job with an empty uri and repeats no release of a counted job |
| `ClientCountsProof.StepGap` | src/client.cpp:3477-3593 | A step moves `focus_full_inflight_` away from the number of held pyramids exactly when it leaks a slot, and keeps it within the cap |
| `ClientLedgerProof.StepLedger` | src/client.cpp:2530-2567 | Every step but the one that abandons a job keeps the ledger: an activity is closed when its job leaves or is finished, and never twice |
| `TileCells.ReplyKeepsExactlyOnce` | src/client.cpp:1279-1291 | A reply, whoever sends it and however often, keeps one posted reply an answered cell and the counter exact |
| `TileCells.MarkKeepsExactlyOnce` | src/client.cpp:1305-1341 | Marking posts nothing, answers nothing and keeps the contract |
| `TileCells.ReplyEachReached` | src/client.cpp:1336-1344 | Answering the reached cells of a queued batch answers exactly those, each with one Cancelled, and no other |
| `TileCells.TileCellBatch.constructor` | src/client.cpp:1248-1251 | A new batch has every cell pending and nothing posted |
| `TileCells.TileCellBatch.Reply` | src/client.cpp:1279-1303 | The new cell states, counter and log: the first reply of a valid index is posted, every other call changes nothing |
| `TileCells.TileCellBatch.Hits` | src/client.cpp:1316-1331 | A cancel request reaches exactly the pending cells it names, or all pending ones when it names none |
| `TileCells.TileCellBatch.Mark` | src/client.cpp:1311-1341 | A running batch has exactly the reached cells turned to CancelRequested; for a queued one exactly those are returned, in order, to be answered |
| `TileCells.TileCellBatch.CancelCells` | src/client.cpp:1305-1346 | Without interference a queued batch has exactly the reached cells answered, each with one Cancelled, and the number of affected cells is returned |
| `TileCells.TileCellBatch.Orphans` | src/client.cpp:3563-3571 | The backstop finds exactly the unanswered cells |
| `JobQueue.ClaimConserves` | src/client.cpp:2939-3073 | What a claim takes and what it leaves are together the old queue, job by job, whatever it reorders |
| `JobQueue.EnqueueKeepsQueueOk` | src/client.cpp:1513-1548 | Enqueueing keeps at most one legacy job a cell and one pyramid a uri |
| `JobQueue.BumpKeepsQueueOk` | src/client.cpp:2573-2586 | A bump leaves no stale job, even when the counter wraps |
| `JobQueue.BumpKeepsEpochsCurrentIff` | src/client.cpp:2573-2586 | A bump keeps every queued epoch 0 or current exactly when the counter does not wrap or nothing stamped is queued |
| `JobQueue.ClaimKeepsQueueOk` | src/client.cpp:2905-3073 | Whatever a claim does, the queue it leaves is well formed |
| `JobQueue.NeverStale` | src/client.cpp:2915-2932 | On a well formed queue the stale-front loop finds nothing |
| `JobQueue.ClaimPriority` | src/client.cpp:2936-2960 | The claimed job is the first interactive tile job if there is one, else the first size probe, else the front |
| `JobQueue.ClaimedPyramidIsAlone` | src/client.cpp:2961-3073 | A claimed pyramid is under the cap and alone in its batch, and neither an interactive tile job nor a size probe is queued |
| `JobQueue.CoalescedBatch` | src/client.cpp:3030-3072 | A coalesced batch is more than its first job only among same-kind jobs of one archive and epoch; a job with cells never enters one |
| `JobQueue.RotationUnblocks` | src/client.cpp:2965-2991 | After a rotation the front is not a pyramid, so the next pass neither rotates nor blocks |
| `ClientQueue.ClientState.constructor` | include/thumtoo/client.hpp:718-728 | The guarded state starts empty, with epoch 1 |
| `ClientQueue.ClientState.EraseIf` | src/client.cpp:2579-2586 | The erase loop takes exactly the matching jobs, in order, and leaves the others in order |
| `ClientQueue.ClientState.Enqueue` | src/client.cpp:1503-1551 | The stamped job is pushed at the asked end behind the removal of exactly the jobs it supersedes |
| `ClientQueue.ClientState.BumpEpoch` | src/client.cpp:2569-2587 | The epoch moves on, past zero when it wraps, and exactly the stale jobs leave the queue |
| `ClientQueue.ClientState.TakeAll` | src/client.cpp:2594-2603 | All queued jobs are taken, in order |
| `ClientQueue.ClientState.RunningOf` | src/client.cpp:2623-2627 | Exactly the running batches of the uri, in order |
| `ClientQueue.ClientState.CancelUri` | src/client.cpp:2610-2628 | Exactly the queued jobs of the uri are dropped and its running batches remembered |
| `ClientQueue.ClientState.SnapshotCells` | src/client.cpp:2651-2680 | One pass drops exactly the legacy jobs of the named cells and remembers the queued and running batches of the uri |
| `ClientQueue.ClientState.PreferInteractive` | src/client.cpp:2939-2960 | The preferred job moves to the front, the rest keeps its order |
| `ClientQueue.ClientState.RotateBlocked` | src/client.cpp:2974-2991 | The blocked pyramid goes to the back and the first other job to the front |
| `ClientQueue.ClientState.Coalesce` | src/client.cpp:3037-3070 | Exactly the joinable jobs leave the queue for the batch, each counted in |
| `ClientQueue.ClientState.TakeFront` | src/client.cpp:3011-3073 | The claim proper, from counting in the front job to the finished batch |
| `ClientQueue.ClientState.ClaimNext` | src/client.cpp:2905-3074 | One pass of the locked section of worker_main does what the specified claim does |
| `ClientQueue.ClientState.ReleaseInflight` | src/client.cpp:1572-1579 | The counter goes down by one, never below zero |
| `ClientQueue.ClientState.Finish` | src/client.cpp:3579-3592 | The release of a finished job: its batch leaves the running list, its slot and its count are given back |
| `Archive.MemberPathsEqual` | src/archive.cpp:23-38 | The comparison is equality of canonical forms, hence an equivalence |
| `Archive.MemberTocIndex` | src/archive.cpp:388-395 | The first matching index of the table, or none |
| `Archive.InterestIndices` | src/archive.cpp:408-417 | Exactly the indices of interesting members, ascending and without duplicates |
| `Archive.InterestIsUnique` | src/archive.cpp:416-417 | Sorting and deduplicating leave no other result |
| `Archive.ChooseStart` | src/archive.cpp:428-468 | Where the window starts, for every branch, with the clamping at both ends |
| `Archive.PlanWindow` | src/archive.cpp:397-480 | The plan is one contiguous slice of the table in its order, at most `max_window` long |
| `Archive.WindowBounds` | src/archive.cpp:428-479 | The window lies in the interest span, is the whole span when that fits, else has exactly `max_window` members and holds the cursor when it is in the span, else the nearest interest index |
| `Archive.PlanServesInterest` | src/archive.cpp:436-470 | The plan holds an interesting member exactly unless the cursor sits between interest indices that are all out of reach |
| `Archive.ArchiveCursor.Ensure` | src/client.cpp:1581-1628 | A known table is kept; otherwise the table that was read is installed |
| `Archive.ArchiveCursor.Install` | src/client.cpp:1617-1627 | A first or changed table restarts the cursor, an empty one changes nothing |
| `Archive.ArchiveCursor.Advance` | src/client.cpp:1656-1666 | The cursor goes behind the index and never behind the table |
| `Archive.ArchiveCursor.PlanAndAdvance` | src/client.cpp:1630-1668 | The plan is made from the old cursor; with `advance_after` the cursor ends behind the last interesting member, and never exceeds the table |
| `ArchiveBatch.Visit` | src/archive.cpp:262-336 | One pass serves, for every path, as many requests as there are requests and readable entries, the earlier requests first, each once |
| `ArchiveBatch.ReleaseBatch` | src/client.cpp:3137-3297 | How often each job of a size batch is released: once when warm or never delivered, else once a delivery |
| `ArchiveBatch.NamesServed` | src/archive.cpp:293-326 | The deliveries of a name are as many as the served requests spelled that way |
| `ArchiveBatch.ReleasesAreEarly` | src/client.cpp:3233-3299 | For any spellings: a cold job is released as often as its spelling occurs among the first requests of its path, one for each readable entry, and once if it does not; so once exactly when it occurs at most once there |
| `ArchiveBatch.ReleasedOnceIff` | src/client.cpp:3233-3299 | With one spelling a member: a cold job is released twice or more exactly when its member was requested more than once and the archive holds more than one readable entry of it |
| `DecodeGate.CellsShareAFlight` | src/pdf_mupdf.cpp:310-332 | Cells of an image that fits the budget ask for the same rectangle, so they share one flight a factor |
| `DecodeGate.Gate.Enter` | src/pdf_mupdf.cpp:336-380 | Joins the first flight of this rectangle and factor, or starts one |
| `DecodeGate.Gate.Wake` | src/pdf_mupdf.cpp:341-355 | One waiter less; the last one takes the flight off the list and drops its result |
| `DecodeGate.Gate.Publish` | src/pdf_mupdf.cpp:412-428 | The flight is done; without waiters it comes off the list, else a snapshot becomes its result |
| `DecodeGate.Gate.Erase` | src/pdf_mupdf.cpp:348-353 | Exactly the one flight leaves the list |
| `DecodeGateProof.FlightLifetime` | src/pdf_mupdf.cpp:336-428 | In every run `waiters` is the number of parked threads, a flight is listed exactly while its owner runs or a waiter remains, and is removed exactly once |
| `DecodeGateProof.SingleFlight` | src/pdf_mupdf.cpp:337-380 | Two listed flights of one key mean that the later one was started by a thread whose decode or copy had failed |
| `DecodeGateProof.OneDecodeAtATime` | src/pdf_mupdf.cpp:373-390 | While nothing has failed no two threads decode the same rectangle and factor at once |
| `DecodeGateProof.ReferencesConserved` | src/pdf_mupdf.cpp:342-429 | The reference count of every pixmap is the number of threads and flights that hold it |
| `DecodeGateProof.ConsumersDoNotInterfere` | src/pdf_mupdf.cpp:356-366 | A consumer that will subsample in place shares its pixmap with nobody |
| `DecodeGateProof.HandedOutUntouched` | src/pdf_mupdf.cpp:398-410 | What a thread hands to its caller has been changed by nobody |
| `DecodeGateProof.ParkedCanGoOn` | src/pdf_mupdf.cpp:340-341 | A parked thread can wake, or an owner of its flight can still step |
| `DecodeGateProof.WaiterGetsItsKey` | src/pdf_mupdf.cpp:338-345 | A waiter gets the outcome of a flight for the very rectangle and factor it asked for |
| `ExtractCache.KeptIsLongest` | src/client.cpp:1691-1701 | Eviction keeps the longest recent prefix that fits |
| `ExtractCache.InsertFits` | src/client.cpp:1691-1713 | A new key stands first, followed by the longest prefix of the old order that fits beside it; the total fits, or the entry is alone |
| `ExtractCache.UpdateTotal` | src/client.cpp:1681-1690 | Updating evicts nothing, moves the key to the front and changes the total by the size difference |
| `ExtractCache.HitsAreCurrent` | src/client.cpp:1716-1726 | Whatever the cache holds under a key was the last put there |
| `ExtractCache.CacheIsMostRecent` | src/client.cpp:1675-1726 | The cached keys are at all times the most recent stretch of the recency order |
| `ExtractCache.BudgetKeptIff` | src/client.cpp:1675-1714 | Throughout a run the cache is within budget or holds one entry, exactly when every update in place fits or changes the only entry |
| `ExtractCache.BudgetKept` | src/client.cpp:1675-1714 | So it is when no entry grows in place |
| `ExtractCache.GrowthBreaksBudget` | src/client.cpp:1681-1690 | Three puts after which two entries exceed the budget |
| `ExtractCache.KeysCollideIff` | src/client.cpp:1670-1673 | Members of two archives can share a key if and only if the path of one, followed by a newline, begins the path of the other |
| `ExtractCache.KeysAreInjective` | src/client.cpp:1670-1673 | Outside that case a key determines archive and member |
| `ExtractCache.PlainPathsDoNotCollide` | src/client.cpp:1670-1673 | Different members have different keys when archive paths hold no newline |
| `ExtractCache.KeysCanCollide` | src/client.cpp:1670-1673 | The case happens: two members with one key |
| `ExtractCache.Cache.Put` | src/client.cpp:1675-1714 | List, map, iterators and byte counter represent the specified next cache |
| `ExtractCache.Cache.Evict` | src/client.cpp:1692-1701 | The loop drops exactly the entries behind the kept prefix |
| `ExtractCache.Cache.Update` | src/client.cpp:1681-1690 | An update in place keeps the representation |
| `ExtractCache.Cache.Get` | src/client.cpp:1716-1726 | A hit returns the bytes and becomes most recent; a miss changes nothing |
| `LexicalPath.NormaliseTwice` | src/uri.cpp:176-177 | Lexical normalisation, as the printer applies it, is idempotent |
| `LexicalPath.NormaliseShrinks` | src/uri.cpp:176-177 | It never makes a path longer |
| `LexicalPath.NormalisedIsApart` | src/uri.cpp:176-177 | It leaves no empty component, so no marker can hide in a base |
| `Location.PercentDecode` | src/uri.cpp:58-80 | The index loop decodes every well formed escape and copies everything else |
| `Location.DecodeEncode` | src/uri.cpp:58-80 | Decoding undoes the printing of a path that holds no escape |
| `Location.BaseComesBack` | src/uri.cpp:176-186 | A base survives normalising, printing and decoding exactly when it is normalised and holds no escape |
| `Location.FileRoundTripIff` | src/uri.cpp:289-345 | Over any good set of markers: which file locations survive |
| `Location.HttpRoundTripIff` | src/uri.cpp:262-270 | Over any good set of markers: which http locations survive |
| `Location.HttpsRoundTripIff` | src/uri.cpp:247-261 | Over any good set of markers: which https locations survive |
| `Pipes.WideIsParsed` | src/uri.cpp:89-172 | An archive or page marker anywhere in the text becomes an archive or page pipe, if the text parses at all |
| `Location.HttpsIsStable` | src/uri.cpp:247-261 | Every https location that came out of parsing is printed and parsed to itself |
| `Location.HttpsPipesAreLost` | src/uri.cpp:249-254 | Pipes of an https location without an archive or page marker end up in the base |
| `Location.ContentRoundTripIff` | src/uri.cpp:271-281 | A content id survives exactly with its prefix and without pipes |
| `Pipes.FindFirstPipe` | src/uri.cpp:30-56 | The least position of the seven markers and its kind |
| `Pipes.ReadPipes` | src/uri.cpp:89-172 | The index loop over the string is the recursive pipe parser |
| `Pipes.PipesRoundTrip` | src/uri.cpp:312-344 | Printed pipes parse back in order behind any text without markers, also behind a slash at its end |
| `Pipes.ParsedWellFormed` | src/uri.cpp:89-172 | Every parsed pipe is well formed |
| `Uri.StdIsGood` | src/uri.cpp:12-18 | No marker begins another one, and printing layout parameters is idempotent, so the results hold for the real markers |
| `Uri.FileRoundTrip` | src/uri.cpp:239-345 | A file location is read back as it was exactly when its base is not empty, normalised and without an escape, and its pipes are well formed |
| `Uri.HttpRoundTrip` | src/uri.cpp:239-345 | An http location is read back exactly when its base is not empty and free of markers and its pipes are well formed |
| `Uri.HttpsRoundTrip` | src/uri.cpp:247-261 | An https location is read back exactly when it has no pipes, or an archive or page marker occurs, the base is free of markers and the pipes are well formed |
| `Uri.HttpsImageBecomesBase` | src/uri.cpp:249-261 | An embedded image of an https document is read back as one long base |
| `Uri.ParsedRoundTrip` | src/uri.cpp:239-345 | Whatever was parsed, of any scheme, is printed and parsed to itself exactly unless a file base came out unnormalised or with an escape |
| `Uri.DotIsNormalisedAway` | src/uri.cpp:176-186 | Bases like /a/./b come back without the dot |
| `EpubLayout.ReadInt` | src/uri.cpp:540-549 | Digits only, accumulated in an int that wraps around |
| `EpubLayout.StoreField` | src/uri.cpp:552-580 | The chain of key tests stores exactly the accepted values |
| `EpubLayout.ParseParams` | src/uri.cpp:523-584 | The index loop is the recursive parser |
| `EpubLayout.ParseRender` | src/uri.cpp:523-584 | The parser takes printed fields apart again, in order |
| `EpubLayout.ReadBack` | src/uri.cpp:463-584 | Reading back a printed layout gives it again but for a column gap without columns |
| `EpubLayout.Canonicalisation` | src/uri.cpp:142-144 | For any string at all, printing what was parsed gives a string that parsing and printing leave alone |
| `EpubLayout.RoundTripIff` | src/uri.cpp:463-584 | Which layouts survive printing and parsing |
| `Base64.Encode` | src/remote_protocol.cpp:145-169 | The text is the big-endian digits of the data with padding, 4*ceil(n/3) characters long |
| `Base64.TakeDigit` | src/remote_protocol.cpp:180-189 | The low `bits` bits of the accumulator are the pending input although it wraps at 32 bits |
| `Base64.Decode` | src/remote_protocol.cpp:171-191 | Accepts exactly texts of digits and trailing padding, and returns the whole bytes they stand for |
| `Base64.LeadingUnique` | src/remote_protocol.cpp:171-191 | The bytes are fixed by the text |
| `Base64.RoundTrip` | src/remote_protocol.cpp:145-191 | Decoding what was encoded gives the data back, for every byte sequence |
| `Base64.EncodeThenDecode` | src/remote_protocol.cpp:145-191 | The two methods one after the other return the data |
| `RemoteRoute.PercentEscape` | src/remote_protocol.cpp:36-51 | The loop escapes exactly the characters that are neither unreserved nor kept |
| `RemoteRoute.DecodeEscaped` | src/remote_protocol.cpp:36-51 | Percent-decoding undoes escaping, whatever follows |
| `RemoteRoute.FormatIsReceived` | src/remote_protocol.cpp:104-122 | Percent-decoding a formatted route leaves prefix, location and suffix as they were |
| `RemoteRoute.LastMarker` | src/remote_protocol.cpp:84-98 | The last tile marker is the printed one, whatever the location contains |
| `RemoteRoute.RoundTripIff` | src/remote_protocol.cpp:70-122 | A route survives exactly when its location is not empty and not mistaken for a content id, and only a tile has coordinates; also with `//tile:` or `//info` inside the location |
| `RemoteRoute.ParsedIsStable` | src/remote_protocol.cpp:70-122 | Every parsed route formats to something that parses to it |
| `ByteCodec.TimeSurvives` | src/text.cpp:122-123 | A signed 64-bit time stamp survives the split in two halves |
| `ByteCodec.ReadStr` | src/text.cpp:56-63 | A string is read only when its length fits what is left |
| `ByteCodec.ReadU32` | src/text.cpp:39-47 | Four bytes, least significant first, or failure at the end |
| `ByteCodec.ManyForward` | src/text.cpp:133-231 | The cursor of a counted loop never passes the end |
| `TextCodec.Serialize` | src/text.cpp:84-131 | The writer appends exactly the specified encoding |
| `TextCodec.ReadRegions` | src/text.cpp:166-198 | The counted loop reads region by region and stops where one cannot be read |
| `TextCodec.Deserialize` | src/text.cpp:133-231 | The reader is the specified decoder |
| `TextCodec.RoundTripIff` | src/text.cpp:84-231 | Decoding gives the layer, with negative block ids as -1 and a negative dpi as 0, exactly when it has OCR data if and only if its source says so |
| `TextCodec.TruncationIsNoticed` | src/text.cpp:133-231 | A cut-off encoding is rejected, except one cut exactly before its trailer, which reads as a native layer |
| `TextCodec.BodyForward` | src/text.cpp:133-198 | On any input the cursor stays within the buffer |
| `TextCodec.SerializeOutline` | src/text.cpp:233-244 | The writer appends exactly the specified encoding |
| `TextCodec.DeserializeOutline` | src/text.cpp:246-268 | The reader is the specified decoder |
| `TextCodec.OutlineRoundTrip` | src/text.cpp:233-268 | Outlines come back unchanged |
| `HashPadding.OneOrTwoBlocks` | src/image.cpp:87-105 | Marker and length need one block when the rest is shorter than 56 bytes, else two |
| `HashPadding.LastBlocks` | src/image.cpp:87-105 | What the last one or two blocks of the padded message are |
| `StreamingHash.Sha256Hash.Update` | src/image.cpp:77-86 | Buffer, state and bit count are those of the longer message |
| `StreamingHash.Sha256Hash.Final` | src/image.cpp:87-120 | The digest is the fold over the padded message, section 5.1.1 of FIPS 180-4 |
| `StreamingHash.Md5Hash.Update` | src/xdg_thumbnail.cpp:102-115 | Copying chunk by chunk feeds the same message |
| `StreamingHash.Md5Hash.Final` | src/xdg_thumbnail.cpp:117-141 | The digest is the fold over the padded message, sections 3.1 to 3.4 of RFC 1321 |
| `StreamingHash.ChunkPush` | src/xdg_thumbnail.cpp:105-114 | Copying a chunk at once or byte by byte is the same |
| `StreamingHash.HashParts` | src/image.cpp:74-120 | SHA-256 of a message fed in any parts is the digest of the whole |
| `StreamingHash.HashPartsMd5` | src/xdg_thumbnail.cpp:93-141 | MD5 of a message fed in any parts is the digest of the whole |
| `HandsumScale.WeightsAreWhole` | external/basic_handsum_decode.c:264-320 | The overlap weights of a target pixel add up to 16 |
| `HandsumScale.BoxBounds` | external/basic_handsum_decode.c:264-320 | A filtered pixel stays between the least and the greatest source pixel |
| `HandsumScale.ScaleLine` | external/basic_handsum_decode.c:280-318 | One line through the accumulators: exactly w pixels, each the exact box filter |
| `HandsumScale.ScaleHorizontal` | external/basic_handsum_decode.c:264-320 | Every line is box filtered to w pixels at the front of the buffer; the rest of the buffer is untouched |
| `HandsumScale.ScaleVertical` | external/basic_handsum_decode.c:323-376 | Every column is box filtered to h pixels |
| `HandsumCodec.ShortSideIsNearest` | src/handsum.cpp:169-180 | The short side is the nearest integer to 16*short/long, and 1 when that would be 0 |
| `HandsumCodec.HeaderIsAccepted` | external/basic_handsum_decode.c:418-445 | The decoder accepts every header the encoder writes and takes the same sizes from it |
| `HandsumCodec.WriteNibble` | src/handsum.cpp:28-31 | One nibble is or-ed in and the bit offset moves by four |
| `HandsumCodec.EncodeTile` | src/handsum.cpp:34-60 | The three quantised coefficients of a tile |
| `HandsumCodec.EncodeBlock` | src/handsum.cpp:34-60 | A block appends its 48 nibbles |
| `HandsumCodec.Encode` | src/handsum.cpp:129-200 | From its planes on, for every width and height: nothing without a size, else 147 bytes that the decoder accepts, with the sizes it takes from them and all 288 nibbles in their places |
| `HandsumCodec.EncodeBlocks` | src/handsum.cpp:185-199 | Header and six blocks fill the 147 bytes exactly and each of the 288 nibbles reads back |
| `HandsumCodec.MeanError` | external/basic_handsum_decode.c:189-230 | The mean of a tile survives within half a step |
| `HandsumCodec.DetailIsDoubled` | external/basic_handsum_decode.c:189-230 | Every other coefficient comes back doubled, within half a step, or as the end it was clamped to: they are written in steps of 8 and read in steps of 16 |
| `HandsumCodec.DetailSurvivesIff` | external/basic_handsum_decode.c:189-230 | The two detail coefficients of a tile survive if and only if each is -128, 0 or 112 |
| `HandsumCodec.TruncationIsHarmless` | external/basic_handsum_decode.c:183-230 | Rounding towards zero makes no difference behind the clamp |
| `HandsumCodec.FlatTileSurvives` | external/basic_handsum_decode.c:189-230 | A flat tile stays flat, within 9 levels |
| `HandsumCodec.BiasAndClampIsClamp` | external/basic_handsum_decode.c:183-186 | The bit trick is a clamp to a byte |
| `HandsumCodec.SmoothBlock` | external/basic_handsum_decode.c:133-179 | The in-place seam smoothing, pixel by pixel |
| `HandsumCodec.SmoothingStaysInside` | external/basic_handsum_decode.c:133-179 | Smoothing invents no level |
| `HandsumCodec.ColourIsClamped` | external/basic_handsum_decode.c:379-415 | The colour conversion does not overflow, is clamped, and keeps grey |
| `StoreTables.SchemaIsKept` | src/store.cpp:82-196 | Every statement keeps references and unique keys, cascades included |
| `StoreTables.PurgeInStepIff` | src/store.cpp:1728-1777 | Purging a blob keeps `tile` and `tile_blob` in step exactly when no tile lies in a region of its media while naming another media |
| `StoreTables.PutKeepsIff` | src/store.cpp:2214-2269 | A put keeps the whole invariant exactly when it is refused or names a region of its media |
| `StoreTables.SoundIsKept` | src/store.cpp:1682-2386 | Every other statement keeps the whole invariant |
| `StoreTables.FreeIdsAreClean` | src/store.cpp:132-195 | A free media or region id has no bytes waiting under it, even when it was used before |
| `StoreTables.RunIsSound` | src/store.cpp:1682-2386 | So the two tables agree after every run |
| `StoreTables.NoStaleBytes` | src/store.cpp:2328-2354 | Bytes found after any run were written for this very media and region row, which were there unchanged ever since |
| `StoreForget.DryRunPredicts` | src/store.cpp:1779-1803 | A dry run of forget_uri says exactly whether the blob goes; it goes exactly when this was its last locator |
| `StoreForget.TilesAreCounted` | src/store.cpp:1796-1801 | The count of deleted tiles is how much the bulk table shrinks |
| `StoreForget.AfterAll` | src/store.cpp:1834-1839 | A real run over a prefix removes the listed locators and exactly the blobs all of whose locators are listed |
| `StoreForget.PrefixDryRun` | src/store.cpp:1807-1841 | The dry run counts locators exactly and blobs from below: exactly when no blob has two locators that are all under the prefix |
| `StoreForget.PrefixTiles` | src/store.cpp:1834-1839 | The tiles counted by a real run are what the bulk table lost |
| `StoreForget.OrphanDryRun` | src/store.cpp:1863-1878 | Purging orphans removes exactly the listed blobs, so the dry count is exact |
| `StoreForget.NoOrphanLeft` | src/store.cpp:1843-1878 | With a limit that is large enough no orphan is left |
| `TileStore.Store.constructor` | src/store.cpp:82-196 | An empty store is sound |
| `TileStore.Store.InsertBlob` | src/store.cpp:843-868 | A blob under a free id |
| `TileStore.Store.PutDigest` | src/store.cpp:1218-1241 | The digest is stored unless it is empty or held by another blob |
| `TileStore.Store.UpsertLocator` | src/store.cpp:1328-1389 | The locator keeps its blob when none is given |
| `TileStore.Store.BindLocator` | src/store.cpp:1391-1408 | The locator gets the blob if both exist |
| `TileStore.Store.FindBlobByHash` | src/store.cpp:1243-1261 | The one blob with the digest |
| `TileStore.Store.FindMediaForBlob` | src/store.cpp:1999-2016 | The one media of the blob and kind |
| `TileStore.Store.FindRegionByKey` | src/store.cpp:2173-2207 | The one region of the media, kind and key |
| `TileStore.Store.InsertMedia` | src/store.cpp:1904-1938 | A media row unless the key is taken |
| `TileStore.Store.InsertRegion` | src/store.cpp:2102-2128 | A region row unless the key is taken |
| `TileStore.Store.EnsureRegion` | src/store.cpp:2130-2137 | The region of the key, found or made |
| `TileStore.Store.EnsureDocumentMedia` | src/store.cpp:2590-2600 | The document media of the blob, found or made |
| `TileStore.Store.EnsureImageMedia` | src/store.cpp:1940-1954 | The image media of the blob and its full region, found or made |
| `TileStore.Store.EnsurePageRegion` | src/store.cpp:2602-2616 | The page region, refused below page 1 |
| `TileStore.Store.PutTile` | src/store.cpp:2214-2269 | Both tables get the cell, or neither |
| `TileStore.Store.GetTileData` | src/store.cpp:2328-2354 | The bytes of the cell exactly when the index knows the cell |
| `TileStore.Store.DeleteTilesForRegion` | src/store.cpp:2356-2386 | Exactly the cells of the region leave both tables |
| `TileStore.Store.DeleteLocator` | src/store.cpp:1682-1699 | The locator goes and its blob is returned |
| `TileStore.Store.PurgeBlobIfUnreferenced` | src/store.cpp:1728-1777 | The specified purge, with the number of bulk rows deleted |
| `TileStore.Store.ForgetUri` | src/store.cpp:1779-1803 | The specified stats and state, dry or real |
| `TileStore.Store.ForgetUriPrefix` | src/store.cpp:1807-1841 | Every matching uri is forgotten once, dry or real |
| `TileStore.Store.ListOrphanBlobIds` | src/store.cpp:1843-1861 | Distinct orphans, as many as the limit allows |
| `TileStore.Store.PurgeOrphanBlobs` | src/store.cpp:1863-1878 | The same count dry and real; the listed orphans are gone afterwards |
| `ContentId.UnhexOfHex` | src/store.cpp:1293-1326 | Hex digits of a digest read back |
| `ContentId.ReadDigest` | src/store.cpp:1293-1314 | Exactly 64 hex digits behind an optional prefix are a digest |
| `ContentId.ReadSuffix` | src/cache_reader.cpp:18-63 | The branches of the suffix parser |
| `ContentId.SuffixIff` | src/uri.cpp:597-622 | A printed suffix is read back, with its region key, exactly when its number is a positive int |
| `ContentId.PrintParsesIff` | src/cache_reader.cpp:67-88 | A printed content id is read back exactly then |
| `ContentId.IdsAreInjective` | src/cache_reader.cpp:67-88 | Two targets never share an id |
| `ContentId.ParsedIsWellFormed` | src/cache_reader.cpp:67-88 | Whatever is read names 32 bytes and at most one positive number |
| `CacheReader.MetaAddresses` | src/cache_reader.cpp:100-248 | The content id that meta gives out addresses the very media and region that meta looked up |
| `CacheReader.ReadyIsTrue` | src/cache_reader.cpp:117-119 | A page is ready exactly when some cell of it can be read |
| `CacheReader.LastTileWins` | src/cache_reader.cpp:250-272 | A cell reads back as the last tile written to it |
| `CacheReader.OtherCellsStay` | src/client.cpp:4345-4366 | Writing tiles changes no other cell |
| `CacheReader.CodecNameIff` | src/cache_reader.cpp:90-98 | The four codec names survive the store, every other one reads as jpeg |
| `CacheReader.TilesComeBack` | src/cache_reader.cpp:274-281 | For any uri that meta resolves to a region, the tiles written under its content id are what a read of the uri returns |
| `CacheReader.ReadContentId` | src/cache_reader.cpp:67-88 | The checks of the parser in their order |
| `CacheReader.Reader.FindTarget` | src/cache_reader.cpp:216-248 | The addressed media and region, if any |
| `CacheReader.Reader.FindMeta` | src/cache_reader.cpp:100-213 | Content id, region and readiness of a uri |
| `CacheReader.Reader.ReadTile` | src/cache_reader.cpp:250-272 | Bytes, size and codec of a cell |
| `CacheReader.EnsureTarget` | src/client.cpp:4311-4343 | Afterwards the id addresses the returned media and region, and no row was changed |
| `CacheReader.PutTilesToStore` | src/client.cpp:4302-4373 | An unreadable id or no tiles changes nothing; else the id is addressed and the tiles are stored there, in order |

## Left out

- The bodies of the job handlers, libvips, MuPDF, DjVuLibre, Tesseract, libarchive and libunarr: a
  decode, a render or an archive read is an arbitrary result or failure.
- ClientDrain.CountersAreExact: does not cover requests with an empty uri and repeated releases;
  `InflightExactIff` and `FocusExactIff` say exactly when the counters are exact.
- ClientDrain.DrainedMeansDone: does not cover a client that is stopping, for which it is false.
- Which archives make a worker release a job again: in the client protocol it may, for any size job
  of a batch; `ArchiveBatch.ReleasesAreEarly` says when the visitor does.
- Signed overflow in the integers of EPUB parameters (src/uri.cpp:540-549) is undefined in the
  source; `EpubLayout.ReadInt` wraps around.
- Wake-up order of condition variables and the memory model: each critical section is one step.
- The drain of the destructor and the joining of threads; the executor posts replies at once.
- The parser of archive uris and the four document uri parsers: their results are parameters.
- The filter for unsafe archive members, the unarr backend and the staging of files.
- The SQLite engine: tables are finite maps, a statement that breaks a key or a reference changes
  nothing, LIKE is an arbitrary predicate; transactions, migrations, crashes between the two
  databases, and tables without tiles (directories, tags, bookmarks, annotations) are not modelled.
- Sizes, page counts, status and time stamps of blobs, locators, media and regions, and with them
  `tile_coverage` and the size that `meta` reports.
- The compression functions of SHA-256 and MD5: uninterpreted.
- The Handsum decoder's upsampling, its 16 by 16 smoothing and the order of its planes, and the
  encoder's colour planes and downsampling.
- Readers of the text layer formats TTL3 to TTL6 are modelled, but nothing writes them.
- Doubles of the text layer are eight bytes that are copied.
- ThumbHash, OCR coordinates, page profiles, EPUB style sheets, appearance storage, HTTP, D-Bus,
  JSON and the tools.

# Verified models of BRAIN-DAEMON

This project models six parts of BRAIN-DAEMON in Dafny 4.11 and proves what they promise. Each part is a specification
in functions, the imperative code that is proved to compute it, and theorems about the specification over all inputs,
runs or reachable states. The files named after a layout or a meaning say what the specification's own definitions come
to in bytes, characters and numbers. `Helpers.dfy` holds what several of them share.

* **Calibration corpus** (`NearDedup.dfy`, `StripPasses.dfy`, `StripMeaning.dfy`, `BucketBalance.dfy`). Near-duplicate clustering by a
  union-find that halves paths in one mutable array; dropping long code blocks and tables line by line; capping buckets
  that take too large a share. What the similarity index returns is an arbitrary table, the shuffle an arbitrary
  permutation.
* **GGUF header** (`GgufFormat.dfy`, `GgufReader.dfy`, `GgufLayout.dfy`, `GgufMinimal.dfy`, `GgufMinimalLayout.dfy`). A
  printer for the layout of the GGUF file format specification (ggml, `docs/gguf.md`, section "File Structure") and the
  repository's two hand-written readers.
* **Quantization jobs** (`QuantJob.dfy`, `QuantStore.dfy`, `QuantSpec.dfy`, `QuantRuns.dfy`, `QuantManager.dfy`). The
  job queue as a state machine with one step per stretch between awaits, its invariants over all runs, its persistence
  and recovery, and the manager class whose methods are those steps.
* **Thermal governor** (`ThermalGovernor.dfy`, `ThermalSettling.dfy`). Smoothing, throttle curve, deadband, slew limit, hold timer, emergency
  and resume, for an arbitrary stream of samples, missing ones included, and arbitrary thresholds.
* **Memory evictor** (`MemoryEvictor.dfy`). Candidate selection, bounded eviction, hold timers, and the check before a
  model is loaded; all readings are arbitrary inputs.
* **Preset compiler** (`TensorRanking.dfy`, `RegexLite.dfy`, `PatternMeaning.dfy`, `PresetEmitter.dfy`, `QuantFlags.dfy`,
  `FlagMeaning.dfy`, `PresetMeaning.dfy`, `PresetSizes.dfy`, `SizeMeaning.dfy`, `PresetPipeline.dfy`). From tensor statistics to a preset, from the preset to quantizer flags with
  first-match meaning, and the two size predictions that read the same preset another way. Patterns beyond those the
  tools write themselves are matched by an arbitrary engine.

`dafny verify dfyconfig.toml` checks everything.

Where a promise turned out not to hold as stated, the code is modelled as it is, a lemma shows the failure, and a theorem
says when the promise holds:

* The minimal metadata reader moves nothing over values of types 10 to 12 and takes the elements of a nested array for
  strings. Without nested arrays it agrees with the full reader exactly on files without those types; an array of arrays
  whose first is not empty always throws it off, unless the file has four gigabytes of it.
* A client misses the terminal event of its job exactly when it unsubscribes, or the job is deleted, before the event
  loop runs the event's callback; deleting a cancelled job at once is enough.
* A cancelled job whose log file fails to close becomes failed and gets a second terminal event. The runs the theorems
  speak of do not hold this step; over all others a job ends once.
* The emergency hold timer survives an emergency and its resume, so one hot sample after a resume can stop the
  instances again: for a resume threshold not above the emergency's, an emergency lacks its hold time of heat exactly
  when some earlier resume was followed by its next sample too late.
* The deadband keeps the last write up to 300 MHz away from the target of a steady temperature. Where the smoothed
  temperature comes from below, it may never reach the target it tends to, and the last write can stay exactly 300 MHz
  away, a distance that would call for a write.
* A resume whose second reading is missing ends the controller. The cleanup sends CONT and clears the instances' flags
  but leaves the controller's own emergency flag set and its switch on, so that a new start does nothing before a stop.
* Compiled family rules are searched anywhere in a tensor's name. Agreement with the size estimate fails for families
  that end another family's name and also for families such as "0" that end some other segment; an explicit type for
  the family `_other` finds none of its tensors unless `_other.` is in their names. A given pin with a type of its own
  takes part in the compiled rules but not in the estimate.
* Tier sizes fall short of the estimate by what pinned tensors of explicitly typed families lack, although the code's
  own documentation promises the sum (BRAIN-DAEMON/quantize/brain-quant.py:1565-1566).
* Bonus fractions above one make the shown counts add up to more than the tensors.

The documentation of `_recover_orphans` speaks of putting queued jobs back to "pending"
(BRAIN-DAEMON/quantize/manager.py:227-228); the code makes them "queued", and so does the model.

## Model

| member | source | states |
|---|---|---|
| UnionFind.ClimbingEndsInRoot | BRAIN-DAEMON/quantize/build-calibration.py:484-488 | climbing the parent links from any element ends, and in one self-loop only |
| UnionFind.HalvingKeepsForest | BRAIN-DAEMON/quantize/build-calibration.py:486 | re-attaching an element to its grandparent keeps the links a forest with the same root for every element |
| UnionFind.LinkingKeepsForest | BRAIN-DAEMON/quantize/build-calibration.py:490-493 | hanging one root below another merges exactly their two trees |
| UnionFind.Forest.Find | BRAIN-DAEMON/quantize/build-calibration.py:484-488 | terminates, returns the root, and rewrites links in place without changing any element's root |
| UnionFind.Forest.Union | BRAIN-DAEMON/quantize/build-calibration.py:490-493 | afterwards the root table is the old one with `b`'s root renamed to `a`'s |
| NearDedup.ConnectedIsSymmetric | BRAIN-DAEMON/quantize/build-calibration.py:495-499 | reachability over an arbitrary, possibly one-sided, query table is symmetric |
| NearDedup.UnionAll | BRAIN-DAEMON/quantize/build-calibration.py:481-499 | for any query results two paragraphs share a root if and only if they are connected |
| NearDedup.FileByRoot | BRAIN-DAEMON/quantize/build-calibration.py:501-504 | every index is in the list of its root, in input order, and no list is empty |
| NearDedup.Longest | BRAIN-DAEMON/quantize/build-calibration.py:507-508 | the member kept is the longest, the earliest among equals |
| NearDedup.KeepBest | BRAIN-DAEMON/quantize/build-calibration.py:506-509 | an index is kept if and only if it beats every paragraph connected to it |
| NearDedup.EveryComponentSurvives | BRAIN-DAEMON/quantize/build-calibration.py:466-467 | every component keeps a paragraph |
| NearDedup.OneSurvivorPerComponent | BRAIN-DAEMON/quantize/build-calibration.py:466-467 | no component keeps two |
| NearDedup.SurvivorsCountComponents | BRAIN-DAEMON/quantize/build-calibration.py:511-512 | the survivors are as many as the components: any choice of one representative per component has their number |
| NearDedup.SurvivorsAreExactlyTheSurvivors | BRAIN-DAEMON/quantize/build-calibration.py:511 | the survivor list is strictly ascending and holds exactly the survivors |
| NearDedup.KeptInOrder | BRAIN-DAEMON/quantize/build-calibration.py:511-512 | the output is the survivors in input order |
| NearDedup.DedupNear | BRAIN-DAEMON/quantize/build-calibration.py:455-512 | end to end: output and number removed, and the early return that changes nothing |
| TextLines.SplitAfterJoin | BRAIN-DAEMON/quantize/build-calibration.py:292-297 | splitting a joined list of lines gives the lines back, and the one exception is the empty list |
| TextLines.JoinAfterSplit | BRAIN-DAEMON/quantize/build-calibration.py:260-292 | joining the lines of a text gives the text back |
| StripPasses.FindClose | BRAIN-DAEMON/quantize/build-calibration.py:269-272 | the first line after the fence that closes it with the same indentation, or the end |
| StripPasses.DropLongCode | BRAIN-DAEMON/quantize/build-calibration.py:258-292 | the index-driven scan computes the code pass, and counts the long blocks of the scan |
| StripPasses.FindRunEnd | BRAIN-DAEMON/quantize/build-calibration.py:300-304 | the end of a maximal run of table lines |
| StripPasses.DropLongTables | BRAIN-DAEMON/quantize/build-calibration.py:294-312 | the index-driven scan computes the table pass, and counts the long runs |
| StripPasses.StripLongCodeAndTables | BRAIN-DAEMON/quantize/build-calibration.py:254-314 | the whole function with both counters; the second counts runs of what the first pass left |
| StripPasses.ScanSplitsFaithfully | BRAIN-DAEMON/quantize/build-calibration.py:262-291 | cutting the lines into segments loses nothing and no segment starts inside another |
| StripPasses.CodePassScan | BRAIN-DAEMON/quantize/build-calibration.py:258-292 | scanning the output of the code pass finds exactly the short segments it kept |
| StripPasses.TablePassBoundsRuns | BRAIN-DAEMON/quantize/build-calibration.py:299-311 | no run of table lines in the output, wherever it starts, is too long |
| StripPasses.TableLinesAreNoFences | BRAIN-DAEMON/quantize/build-calibration.py:264-300 | a table line neither opens nor closes a fence |
| StripPasses.ThinningKeepsBlocksShort | BRAIN-DAEMON/quantize/build-calibration.py:294-312 | removing table lines, even inside a kept block, lengthens no block and opens none |
| StripPasses.StripIsCleanSubsequence | BRAIN-DAEMON/quantize/build-calibration.py:254-314 | the output keeps both limits and is a subsequence of the input lines |
| StripPasses.StripKeepsExactlyCleanTexts | BRAIN-DAEMON/quantize/build-calibration.py:254-314 | a text comes back unchanged if and only if it is within both limits |
| StripPasses.StripIsIdempotent | BRAIN-DAEMON/quantize/build-calibration.py:254-314 | running the function on its own output changes nothing |
| StripMeaning.OpeningLines | BRAIN-DAEMON/quantize/build-calibration.py:264-267 | a block opens exactly on a line with three backquotes after blanks, and those blanks are its indentation |
| StripMeaning.ClosingLines | BRAIN-DAEMON/quantize/build-calibration.py:270 | it closes exactly on a line of the same indentation, three backquotes and blanks |
| StripMeaning.ScannedInText | BRAIN-DAEMON/quantize/build-calibration.py:262-291 | the segments are the lines in order and without loss; outside blocks no line opens a fence, no line of a block closes it, and only the last block may be open |
| StripMeaning.KeepsExactlyTheShort | BRAIN-DAEMON/quantize/build-calibration.py:274-288 | exactly the blocks of at most that many lines between their fences are kept, and the counter counts the others |
| StripMeaning.RunsAreDecidedOneByOne | BRAIN-DAEMON/quantize/build-calibration.py:299-311 | for any text before and behind a maximal run of table lines: the run goes, and is counted, exactly when it has more lines than allowed, and the rest is treated as if it were not there |
| StripMeaning.CleanInText | BRAIN-DAEMON/quantize/build-calibration.py:254-314 | what a clean text is in lengths: no block with more lines inside, and no stretch of table lines longer, than allowed |
| BucketBalance.TargetIsTheShare | BRAIN-DAEMON/quantize/build-calibration.py:555-558 | the truncated byte target is met exactly when the bucket's share of the whole is within the ratio |
| BucketBalance.TakeUpTo | BRAIN-DAEMON/quantize/build-calibration.py:564-571 | a non-empty prefix, within the target if longer than one, and the next paragraph would overshoot |
| BucketBalance.CapBucket | BRAIN-DAEMON/quantize/build-calibration.py:555-576 | a capped bucket is a non-empty sub-multiset, within the ratio if longer than one, and one more of the paragraphs it lost would make it overshoot; unchanged only if it cannot shrink |
| BucketBalance.CapPass | BRAIN-DAEMON/quantize/build-calibration.py:546-578 | one pass: every bucket against the totals at its start, the paragraphs dropped, and whether anything changed |
| BucketBalance.BalanceBuckets | BRAIN-DAEMON/quantize/build-calibration.py:519-581 | no non-empty bucket is emptied, each keeps a sub-multiset, capped is initial minus final, every pass keeps as much as fits, and if a pass changed nothing every bucket over the ratio was unshrinkable |
| BucketBalance.PassKeepsWhatFits | BRAIN-DAEMON/quantize/build-calibration.py:553-576 | of each bucket a pass keeps everything that is within the ratio or cannot shrink, and otherwise as many paragraphs as fit: some paragraph it lost would not |
| BucketBalance.SettledInBytes | BRAIN-DAEMON/quantize/build-calibration.py:553-580 | where the passes came to rest every bucket fits or cannot shrink |
| BucketBalance.OneOverIsCapped | BRAIN-DAEMON/quantize/build-calibration.py:553-576 | if one bucket alone is over the ratio and shrinks to several paragraphs, it is within the ratio of the new total too |
| BucketBalance.SomeBucketIsOver | BRAIN-DAEMON/quantize/build-calibration.py:524-526 | with too few buckets for the ratio the promise cannot be kept: whatever is chosen, some bucket is over it |
| GgufFormat.DecodeAfterEncode | BRAIN-DAEMON/quantize/gguf_stats.py:210-214 | decoding the little-endian form of a number that fits gives the number |
| GgufFormat.EncodeAfterDecode | BRAIN-DAEMON/quantize/gguf_stats.py:210-214 | bytes are the little-endian form of the number they decode to |
| GgufSpec.SkipValue | BRAIN-DAEMON/quantize/gguf_stats.py:234-248 | a successful skip advances, never past the end; the recursion through nested arrays ends on every input |
| GgufSpec.SkipMany | BRAIN-DAEMON/quantize/gguf_stats.py:245-246 | each element of a skipped array takes at least a byte, so counts are bounded by the data |
| GgufSpec.SkipsPrintedValue | BRAIN-DAEMON/quantize/gguf_stats.py:234-248 | a printed value of any nesting is skipped by exactly the length of its encoding |
| GgufSpec.SkipsOnlyPrinted | BRAIN-DAEMON/quantize/gguf_stats.py:234-248 | conversely, whatever is skipped is the encoding of a well-formed value of that type |
| GgufSpec.HeaderRoundTrip | BRAIN-DAEMON/quantize/gguf_stats.py:261-298 | reading a printed header followed by any data gives its version and tensors and its length |
| GgufSpec.TruncatedRoundTrip | BRAIN-DAEMON/quantize/gguf_stats.py:255-261 | the first bytes up to the limit are enough for any header that fits in them |
| GgufSpec.HeaderBehind | BRAIN-DAEMON/quantize/gguf_stats.py:261-298 | behind every accepted buffer there is a header whose encoding it starts with, and its contents are the answer |
| GgufSpec.AcceptsExactlyPrintedHeaders | BRAIN-DAEMON/quantize/gguf_stats.py:261-298 | a buffer is accepted if and only if it starts with the encoding of a well-formed header |
| GgufLayout.EightBytes | BRAIN-DAEMON/quantize/gguf_stats.py:210-214 | which byte counts what: with FourBytes, the place value of each of the eight |
| GgufLayout.ValueWidths | BRAIN-DAEMON/quantize/gguf_stats.py:130-142 | the width of each of the thirteen value types, and no other type is known |
| GgufLayout.LongValues | BRAIN-DAEMON/quantize/gguf_stats.py:239-246 | a string of n bytes and an array of n one-byte numbers behind their lengths |
| GgufLayout.LongNamesAreRefused | BRAIN-DAEMON/quantize/gguf_stats.py:228-232 | a name of more than a hundred thousand bytes is refused, a shorter one is read, and one cut off by the end is an error |
| GgufLayout.DimensionWidths | BRAIN-DAEMON/quantize/gguf_stats.py:284-288 | dimensions take four bytes in version 1 and eight in versions 2 and 3 |
| GgufLayout.RefusedFor | BRAIN-DAEMON/quantize/gguf_stats.py:263-272 | for every buffer: refused for its magic number or its version if and only if the bytes are there to tell, and as too short when it ends inside the first 24 bytes |
| GgufLayout.SmallFile | BRAIN-DAEMON/quantize/gguf_stats.py:263-298 | a whole file of each version, byte by byte, with a number, a string, an array and a tensor |
| GgufReader.Reader.TakeBytes | BRAIN-DAEMON/quantize/gguf_stats.py:203-208 | moves the offset by the bytes taken, or raises and leaves it inside the buffer |
| GgufReader.Reader.ReadUnsigned | BRAIN-DAEMON/quantize/gguf_stats.py:210-214 | the fixed-width number at the offset |
| GgufReader.Reader.ReadName | BRAIN-DAEMON/quantize/gguf_stats.py:228-232 | the string at the offset, refused above the length limit |
| GgufReader.Reader.Skip | BRAIN-DAEMON/quantize/gguf_stats.py:234-248 | the recursive method does what the specification of skipping says, error cases included |
| GgufReader.Reader.SkipMetadata | BRAIN-DAEMON/quantize/gguf_stats.py:274-278 | skips that many entries or raises what the first bad one raises |
| GgufReader.Reader.ReadTensorInfo | BRAIN-DAEMON/quantize/gguf_stats.py:282-296 | one tensor descriptor, dimensions by version |
| GgufReader.Reader.ReadTensorInfos | BRAIN-DAEMON/quantize/gguf_stats.py:280-296 | the descriptors in file order |
| GgufReader.ReadGgufHeader | BRAIN-DAEMON/quantize/gguf_stats.py:251-298 | the whole reader on at most the first bytes of the file |
| GgufMinimal.SkipsSimpleValues | BRAIN-DAEMON/memory/monitor.py:126-147 | below type ten and without nested arrays the seeks consume exactly the encoding |
| GgufMinimal.ReadsSimpleValues | BRAIN-DAEMON/memory/monitor.py:113-124 | on the same values the reading code stands at the same offset and returns the meaning |
| GgufMinimal.ExactOnlyBelowTypeTen | BRAIN-DAEMON/memory/monitor.py:126-129 | among values that do not nest, a value is skipped exactly if and only if its type is at most nine; the 64-bit types move nothing |
| GgufMinimal.NestedArraysOvershoot | BRAIN-DAEMON/memory/monitor.py:139-147 | every array of arrays below four gigabytes whose first inner array is not empty is misread: if the seeks end at all, they end beyond the value |
| GgufMinimal.SingleNestedArray | BRAIN-DAEMON/memory/monitor.py:139-147 | where the cursor ends behind a single inner array, and exactly when that is the end of the value: when the false string length, subtype plus 2^32 times the count, is what is left of the value |
| GgufMinimal.SomeNestedArraysAreSkipped | BRAIN-DAEMON/memory/monitor.py:139-147 | the coincidence happens: an empty array of 32-bit integers in an array is skipped right |
| GgufMinimal.EntriesInLockStep | BRAIN-DAEMON/memory/monitor.py:149-170 | after every number of simple entries both walkers stand at the end of the same entry |
| GgufMinimal.WalkersAgree | BRAIN-DAEMON/memory/monitor.py:100-170 | on a file with simple metadata the minimal reader ends where the full one does, with what the entries mean |
| GgufMinimal.InStepExactlyBelowTypeTen | BRAIN-DAEMON/memory/monitor.py:126-170 | on a file without nested arrays the two walkers agree after every entry if and only if no value has a type above nine |
| GgufMinimal.ReadsExactlyTheStoredKeys | BRAIN-DAEMON/memory/monitor.py:149-170 | its map holds exactly the two fixed keys and the architecture's keys after the architecture, each with its last value |
| GgufMinimal.ReadsJoin | BRAIN-DAEMON/memory/monitor.py:109-111 | reading twice is reading once as much, and a read is short only at the end of the file: what makes a short string no error and a seek beyond the end unnoticed |
| GgufMinimalLayout.WantedKeys | BRAIN-DAEMON/memory/monitor.py:150-166 | before an architecture is known exactly two keys are wanted, and afterwards exactly eight more under its name |
| GgufMinimalLayout.DecimalReadsBack | BRAIN-DAEMON/memory/monitor.py:156-165 | how an architecture that is a number would name its keys: in decimal, without a leading zero, reading back to the number |
| GgufMinimalLayout.NumbersRead | BRAIN-DAEMON/memory/monitor.py:119-122 | four bytes as an unsigned number and as two's complement |
| GgufMinimalLayout.TextEndsWithTheFile | BRAIN-DAEMON/memory/monitor.py:109-111 | a text cut off by the end of the file comes back shortened, without an error |
| GgufMinimalLayout.SeeksGoAnywhere | BRAIN-DAEMON/memory/monitor.py:130-144 | numbers, texts and arrays of numbers are stepped over by their size, whatever is left of the file |
| GgufMinimalLayout.GivesUpFor | BRAIN-DAEMON/memory/monitor.py:103-106 | for every file: too short below 24 bytes, even with a wrong magic number, and a wrong magic number if and only if there are 24 bytes that start with another one |
| GgufMinimal.MetadataReader.ReadText | BRAIN-DAEMON/memory/monitor.py:109-111 | the string at the cursor; a short string is not an error |
| GgufMinimal.MetadataReader.SkipOne | BRAIN-DAEMON/memory/monitor.py:126-147 | the seeking code does what its specification says, strings of an array one by one |
| GgufMinimal.MetadataReader.ReadOne | BRAIN-DAEMON/memory/monitor.py:113-124 | numbers, strings and nothing, or the error for an unknown type |
| GgufMinimal.MetadataReader.ReadRound | BRAIN-DAEMON/memory/monitor.py:153-170 | one entry: the wanted keys grow once, after the architecture is known, and a wanted entry is stored |
| GgufMinimal.MetadataReader.ReadMetadata | BRAIN-DAEMON/memory/monitor.py:149-170 | the loop over the entries, every error included |
| GgufMinimal.ReadMinimal | BRAIN-DAEMON/memory/monitor.py:100-107 | the preamble, then the entries; the magic is looked at last |
| QuantStore.OutputRoundTrip | BRAIN-DAEMON/quantize/manager.py:50-59 | an output read back from its dictionary is the output |
| QuantStore.StatusRoundTrip | BRAIN-DAEMON/quantize/manager.py:47 | the six status names are distinct |
| QuantStore.JobRoundTrip | BRAIN-DAEMON/quantize/manager.py:78-93 | `Job(**job.to_dict())` is the job, for every job |
| QuantStore.RequiredFieldsStored | BRAIN-DAEMON/quantize/manager.py:78-93 | the five fields a job must have stand in its dictionary under these names |
| QuantStore.OtherFieldsAreRefused | BRAIN-DAEMON/quantize/manager.py:206-218 | a record with any other field, or without one of those five, is refused |
| QuantStore.ShortestRecord | BRAIN-DAEMON/quantize/manager.py:62-76 | a record with those five and nothing else loads with the defaults for the rest |
| QuantManager.LoadAfterSave | BRAIN-DAEMON/quantize/manager.py:175-218 | loading what was saved gives the same jobs in the same order |
| QuantManager.RequeuedOnce | BRAIN-DAEMON/quantize/manager.py:250-253 | no id is put back in the queue twice |
| QuantManager.RequeuedInOrder | BRAIN-DAEMON/quantize/manager.py:233-253 | they stand in the queue in stored order |
| QuantManager.KilledAreTheOrphans | BRAIN-DAEMON/quantize/manager.py:234-241 | a pid is killed if and only if it is the stored, non-zero pid of a job that ran |
| QuantManager.RecoveredIsBooted | BRAIN-DAEMON/quantize/manager.py:220-262 | from any stored jobs: nothing runs; every running job has failed with the note at the end of its message, the time and no pid, every pending one is queued, the rest is unchanged; and all run invariants hold |
| QuantManager.RecoveredTwice | BRAIN-DAEMON/quantize/manager.py:220-262 | a second recovery changes no job |
| QuantManager.Manager.LoadState | BRAIN-DAEMON/quantize/manager.py:206-218 | records in stored order up to the first that cannot be rebuilt |
| QuantManager.Manager.RecoverOne | BRAIN-DAEMON/quantize/manager.py:234-256 | one job recovered, requeued if unstarted, its process group killed if it ran |
| QuantManager.Manager.RecoverOrphans | BRAIN-DAEMON/quantize/manager.py:220-262 | the recovered jobs, the queue, the killed pids and empty streams |
| QuantManager.Manager.Start | BRAIN-DAEMON/quantize/manager.py:130-138 | a fresh process after loading and recovering: booted, with the queue in stored order |
| QuantManager.Manager.SaveState | BRAIN-DAEMON/quantize/manager.py:175-189 | what is written loads back to the same registry |
| QuantManager.Manager.SubmitJob | BRAIN-DAEMON/quantize/manager.py:266-283 | an unknown type is refused and changes nothing; otherwise the job waits once and `queued` is published |
| QuantManager.Manager.CancelJob | BRAIN-DAEMON/quantize/manager.py:300-315 | accepted exactly for unfinished jobs; a queued one is cancelled at once, a running one is asked to stop |
| QuantManager.Manager.DeleteJob | BRAIN-DAEMON/quantize/manager.py:317-327 | refused exactly for unknown, queued and running jobs; otherwise record and streams go and the other jobs keep their order |
| QuantManager.Manager.WorkerTake | BRAIN-DAEMON/quantize/manager.py:412-416 | the oldest id moves from the queue to an idle worker's hand |
| QuantManager.Manager.WorkerStart | BRAIN-DAEMON/quantize/manager.py:417-451 | a vanished or cancelled id is dropped, any other job starts and says so |
| QuantManager.Manager.UpdateRecord | BRAIN-DAEMON/quantize/manager.py:514-558 | the callbacks' writes into the running job's record, its progress, its pid and a finished output, none of which publishes anything |
| QuantManager.Manager.ReportStage | BRAIN-DAEMON/quantize/manager.py:655-661 | an event of the running job that is not its last, and nothing else |
| QuantManager.Manager.ReportProgress | BRAIN-DAEMON/quantize/manager.py:514-524 | the progress goes into the record first and is published then |
| QuantManager.Manager.RunnerReturned | BRAIN-DAEMON/quantize/manager.py:466-470 | done or cancelled, with the pid and the outputs as the callbacks left them; one terminal event; the worker is idle again |
| QuantManager.Manager.RunnerRaised | BRAIN-DAEMON/quantize/manager.py:422-427 | failed with the message; one error event; the worker is idle again |
| QuantManager.Manager.DoPublish | BRAIN-DAEMON/quantize/manager.py:375-389 | every queue subscribed at that moment is offered the event, no other queue changes |
| QuantManager.Manager.Stream | BRAIN-DAEMON/quantize/manager.py:331-343 | an unknown id is refused; otherwise a fresh queue starts with the job's snapshot |
| QuantManager.Manager.RemoveStream | BRAIN-DAEMON/quantize/manager.py:345-348 | the queue is offered nothing further; its contents stay |
| QuantManager.Manager.SafePut | BRAIN-DAEMON/quantize/manager.py:391-396 | a waiting put goes through exactly when there is room |
| QuantRuns.StepKeepsAll | BRAIN-DAEMON/quantize/manager.py:266-470 | every step of every actor keeps all invariants of jobs, events and queues |
| QuantRuns.RunKeepsInv | BRAIN-DAEMON/quantize/manager.py:266-470 | so does every run from a booted state |
| QuantRuns.FinalStatusKept | BRAIN-DAEMON/quantize/manager.py:300-327 | no step takes a job out of a terminal status |
| QuantRuns.FinalForever | BRAIN-DAEMON/quantize/manager.py:300-327 | nor does any run, and a deleted id never comes back |
| QuantRuns.OneRunsAndQueuedWaitOnce | BRAIN-DAEMON/quantize/manager.py:411-446 | in every reachable state at most one job runs and every queued job waits exactly once |
| QuantRuns.CancelledNeverRuns | BRAIN-DAEMON/quantize/manager.py:309-314 | a job cancelled while queued stays cancelled in every continuation |
| QuantRuns.WaitingMovesOn | BRAIN-DAEMON/quantize/manager.py:276-416 | a step takes only the first of the waiting ids and adds one only at their end |
| QuantRuns.FirstComeFirstServed | BRAIN-DAEMON/quantize/manager.py:276-416 | over every run: of two waiting ids the one in front has left the line, by being taken, whenever the other has |
| QuantRuns.RequestReachesTheRunner | BRAIN-DAEMON/quantize/manager.py:306-308 | a cancellation asked of a running job stays asked until the runner ends, whatever else happens |
| QuantRuns.OneTerminalEventPerJob | BRAIN-DAEMON/quantize/manager.py:309-470 | a job that ended in the run has published exactly one of done, cancelled and error, last and matching its status; an unfinished one none |
| QuantRuns.LateCloseFailureEndsTwice | BRAIN-DAEMON/quantize/manager.py:422-464 | the step left out of the runs: when the log file of a cancelled run fails to close, the job goes from cancelled to failed and has two terminal events |
| QuantRuns.ClientView | BRAIN-DAEMON/quantize/manager.py:331-396 | a client gets its snapshot, then a subsequence in order of what was dispatched since, with a terminal event once and last whatever was dropped |
| QuantRuns.ReaderGetsItAll | BRAIN-DAEMON/quantize/manager.py:391-396 | in every reachable state, a client that keeps reading receives everything kept for it, the waiting terminal event included |
| QuantRuns.StepOnTheList | BRAIN-DAEMON/quantize/manager.py:317-348 | a queue leaves its job's list on exactly two steps: its own unsubscription and a successful deletion of the job |
| QuantRuns.RunOnTheList | BRAIN-DAEMON/quantize/manager.py:317-348 | over every run: it is still on the list if and only if neither happened |
| QuantRuns.TerminalReachesTheList | BRAIN-DAEMON/quantize/manager.py:375-389 | dispatching a terminal event appends it to the view of exactly the queues on the list, however full they are |
| QuantRuns.EventReachesTheList | BRAIN-DAEMON/quantize/manager.py:375-389 | any other event goes to exactly the queues on the list with fewer than a thousand events waiting, and is dropped for the rest |
| QuantRuns.EndReachesExactlyTheStaying | BRAIN-DAEMON/quantize/manager.py:317-389 | over every run from a boot through a subscription to the dispatch of the job's terminal event: the client gets that event if and only if it neither unsubscribed nor the job was deleted in between, and otherwise it gets no terminal event at all |
| QuantRuns.DeletedBeforeDispatch | BRAIN-DAEMON/quantize/manager.py:317-389 | a run that misses it: the job is deleted between publishing and dispatching its terminal event |
| ThermalSpec.ThrottleIsMonotone | BRAIN-DAEMON/thermal/controller.py:233-239 | defined for every configuration, even start at or above full; between 0 and 100; grows with the temperature |
| ThermalSpec.TargetFallsWithHeat | BRAIN-DAEMON/thermal/controller.py:241-252 | the target is always in range and never rises with the temperature |
| ThermalSpec.CurveIsLinear | BRAIN-DAEMON/thermal/controller.py:233-252 | 5187.5 MHz up to the start, 625 MHz from the full threshold on, and between them the straight line rounded down to a percent and then to 100 MHz |
| ThermalSpec.GapShrinks | BRAIN-DAEMON/thermal/controller.py:330-352 | every unsettled call takes a full step off the gap or closes it |
| ThermalSpec.SettlesInNineCalls | BRAIN-DAEMON/thermal/controller.py:319-352 | under a constant target nine calls settle within the threshold and nothing is written afterwards |
| ThermalSpec.EightCallsDoNotSettle | BRAIN-DAEMON/thermal/controller.py:319-352 | nine is the least such number |
| ThermalRuns.WritesAreBoundedAndSlewLimited | BRAIN-DAEMON/thermal/controller.py:313-376 | over every run: all writes in range; a write that is not the first, the forced drop or the final restore differs from the one before by at least the threshold and at most a step |
| ThermalRuns.WritesInNumbers | BRAIN-DAEMON/thermal/controller.py:313-376 | the same in numbers: 625 to 5187.5 MHz, steps of 300 to 500 MHz, a forced drop to 625, full speed at the very end |
| ThermalRuns.EmaStaysBetween | BRAIN-DAEMON/thermal/controller.py:451-454 | the smoothed temperature stays between the least and greatest sample |
| ThermalRuns.EmaClosesIn | BRAIN-DAEMON/thermal/controller.py:451-454 | on a steady temperature n samples leave 0.6 to the n of the distance |
| ThermalRuns.ThrottlingApproachesTheTarget | BRAIN-DAEMON/thermal/controller.py:467-497 | a throttling write happens only outside emergencies and cooldowns and moves strictly closer to the target of the smoothed temperature |
| ThermalRuns.SampleIsAnswered | BRAIN-DAEMON/thermal/controller.py:467-497 | the converse, for every sample outside an emergency: past the cooldown the first write goes to the target, a target nearer than 300 MHz is left, and any other is answered by exactly one write that reaches it or takes a full step of 500 MHz towards it |
| ThermalSettling.SteadyTemperatureSettles | BRAIN-DAEMON/thermal/controller.py:448-497 | over every long enough run on a steady temperature without emergency or cooldown: from some number of samples on, the last write is within 300 MHz of the target of the smoothed temperature, and, with the throttle start below full, within 400 MHz of the temperature's own target, or 300 MHz if the smoothed temperature started at or above it |
| ThermalSettling.TargetIsMissedFromBelow | BRAIN-DAEMON/thermal/controller.py:336-337 | a concrete run that ends exactly 300 MHz from the temperature's target for ever, although no write is due |
| ThermalRuns.StopAndContAlternate | BRAIN-DAEMON/thermal/controller.py:361-402 | over every run STOP and CONT strictly alternate, STOP first |
| ThermalRuns.EmergencyEnters | BRAIN-DAEMON/thermal/controller.py:361-378 | the emergency comes on only at the end of the hold time, with one STOP, every instance flagged and the floor written; while it lasts nothing is written or sent |
| ThermalRuns.EmergencyLeaves | BRAIN-DAEMON/thermal/controller.py:460-465 | the emergency flag goes off only on a sample below the resume threshold, and then no running instance stays flagged |
| ThermalRuns.EmergencySampleIsAnswered | BRAIN-DAEMON/thermal/controller.py:460-465 | the converse, for every sample in an emergency: below the resume threshold the instances are continued and unflagged and the emergency ends, unless the second reading is missing; otherwise nothing is written or sent |
| ThermalRuns.ControllerEnds | BRAIN-DAEMON/thermal/controller.py:511-522 | the loop ends if and only if it is stopped or the second reading of a resume is missing; either way instances are continued and unflagged and full speed restored; only a stop turns the switch off, and the emergency flag stays |
| ThermalRuns.CrashLeavesTheFlag | BRAIN-DAEMON/thermal/controller.py:380-402 | a concrete run into such a crash, with its writes and signals: the emergency flag is left set and the switch on, so that the next start does nothing |
| ThermalRuns.EmergenciesAreHeld | BRAIN-DAEMON/thermal/controller.py:467-492 | over every run each emergency has a timer start at least the hold time before, with every sample outside an emergency since then at or above the threshold |
| ThermalRuns.EmergencyComesExactlyWhenHeld | BRAIN-DAEMON/thermal/controller.py:467-492 | over every run from a start whose clock does not run backwards, a sample enters an emergency if and only if it ends a stretch of samples at or above the threshold, outside emergencies, of two seconds or more since a sample that started the timer |
| ThermalRuns.SustainedUnlessInterrupted | BRAIN-DAEMON/thermal/controller.py:467-492 | for every setting: the heat was sustained since the timer start if and only if no sample inside an emergency was cooler; with a resume threshold not above the emergency's, if and only if no earlier emergency lies between |
| ThermalRuns.EmergencyHeldUnlessResumedLate | BRAIN-DAEMON/thermal/controller.py:467-492 | for every emergency of every run from a start: the heat lasted the full hold time, counted from some sample, if and only if every cooler sample before was followed by one at least the hold time before; with a resume threshold not above the emergency's, if and only if every resume was |
| ThermalRuns.OneSpikeAfterResumeIsEnough | BRAIN-DAEMON/thermal/controller.py:396-473 | a concrete run with such an interruption: one hot sample after a resume stops the instances again |
| ThermalRuns.GovernorIsSafe | BRAIN-DAEMON/thermal/controller.py:430-523 | writes, signals and timer together, for every sample stream and every threshold setting |
| ThermalController.Controller.Start | BRAIN-DAEMON/thermal/controller.py:123-147 | nothing while the switch is on, even after a crash; otherwise the state a run starts from, in which the smoothed temperature, the last resume and the flags survive |
| ThermalController.Controller.Stop | BRAIN-DAEMON/thermal/controller.py:149-154 | the switch goes off, and a loop that still runs ends with the cleanup |
| ThermalController.Controller.ApplyFreq | BRAIN-DAEMON/thermal/controller.py:313-352 | the four cases of a write against the recorded writes |
| ThermalController.Controller.EnterEmergency | BRAIN-DAEMON/thermal/controller.py:361-378 | STOP, flags, and the forced drop to the floor |
| ThermalController.Controller.LeaveEmergency | BRAIN-DAEMON/thermal/controller.py:380-402 | CONT, flags and the time of the resume; a missing reading leads to the cleanup instead |
| ThermalController.Controller.RestoreAll | BRAIN-DAEMON/thermal/controller.py:515-522 | the cleanup; the emergency flag itself is left as it was |
| ThermalController.Controller.CheckHold | BRAIN-DAEMON/thermal/controller.py:480-492 | the hold timer, and the emergency exactly when it has run out |
| ThermalController.Controller.OnTick | BRAIN-DAEMON/thermal/controller.py:440-509 | one turn of the loop is one step of the run the theorems speak of |
| EvictionSpec.CandidateIsUnique | BRAIN-DAEMON/memory/controller.py:205-207 | there is at most one candidate: greatest footprint, then oldest inference, then table order |
| EvictionSpec.CandidateIsHeaviest | BRAIN-DAEMON/memory/controller.py:184-207 | the candidate may go, and of the models that may no other occupies more, nor as much with an older inference |
| EvictionSpec.HeaviestGoFirst | BRAIN-DAEMON/memory/controller.py:205-271 | over a whole eviction the victims go in that order |
| EvictionSpec.EvictionGoesOn | BRAIN-DAEMON/memory/controller.py:251-271 | an eviction stops before its fifth victim only at a reading below the threshold or when nobody may go |
| EvictionSpec.WhatCounts | BRAIN-DAEMON/memory/controller.py:314-319 | what is counted as freeable of a model: its VRAM and the first of its three RAM figures that is not zero |
| EvictionSpec.EvictionIsBounded | BRAIN-DAEMON/memory/controller.py:251-271 | at most five victims, each eligible when chosen; victims and survivors make up the table, and freed plus freeable is what was freeable |
| EvictionSpec.ProtectedModelsStay | BRAIN-DAEMON/memory/controller.py:186-200 | a model that is protected, stopped, not running or inferring is still there afterwards |
| EvictionSpec.TickKeepsTimer | BRAIN-DAEMON/memory/controller.py:162-176 | a tick keeps the account of the pressure timer |
| EvictionSpec.EvictionNeedsSustainedPressure | BRAIN-DAEMON/memory/controller.py:162-176 | in every run a tick evicts if and only if the gate was open on every tick for thirty seconds |
| EvictionSpec.EvictsExactlyWhenDue | BRAIN-DAEMON/memory/controller.py:129-176 | the same on the readings alone: in every run a tick evicts if and only if it ends a stretch of thirty seconds in which swap was at least 90 percent, after a flush where one was due, and RAM at its threshold |
| MemoryController.Controller.SelectCandidate | BRAIN-DAEMON/memory/controller.py:184-207 | the candidate, or none exactly when nothing is eligible |
| MemoryController.Controller.EvictUntilBelow | BRAIN-DAEMON/memory/controller.py:251-271 | evicts candidates one by one and stops after five, at the first reading below the threshold, or when nobody is left |
| MemoryController.Controller.OnTick | BRAIN-DAEMON/memory/controller.py:129-176 | both timers, and the eviction they start; otherwise no instance goes |
| MemoryController.Controller.SumFreeable | BRAIN-DAEMON/memory/controller.py:314-319 | the memory of the running models that are neither protected nor stopped |
| MemoryController.Controller.PreloadCheck | BRAIN-DAEMON/memory/controller.py:275-341 | in the readings: yes if VRAM and RAM together cover the need, or lack at most the larger of 2 GB and 3 percent; no without evicting if what is freeable is less than what is lacking; otherwise an eviction, and yes only if the readings after it cover the need |
| TensorRanking.SortSorts | BRAIN-DAEMON/quantize/inspect-imatrix.py:1113 | the ranking is a permutation, hottest first |
| TensorRanking.SortIsStable | BRAIN-DAEMON/quantize/inspect-imatrix.py:1113 | equal energies keep their order |
| TensorRanking.SameEnergyInOrder | BRAIN-DAEMON/quantize/inspect-imatrix.py:1113 | those of one energy are all of them, in input order |
| TensorRanking.AssignTiers | BRAIN-DAEMON/quantize/inspect-imatrix.py:1118-1134 | the tier of every tensor but the first is the least whose cut covers the share accumulated before it, and tiers never fall along the ranking |
| TensorRanking.FirstTensorTier | BRAIN-DAEMON/quantize/inspect-imatrix.py:1121-1126 | the first tensor's tier fits that rule exactly when the first cut is not negative |
| TensorRanking.TiersOvershootByOne | BRAIN-DAEMON/quantize/inspect-imatrix.py:1122-1134 | with increasing cuts the tiers up to a cut overshoot it by at most their last tensor |
| SizeMeaning.ShareInNumbers | BRAIN-DAEMON/quantize/inspect-imatrix.py:1112-1126 | the share before a tensor is the energy of those before it over the energy of all, and over one when there is none |
| TensorRanking.CumulativeTiers | BRAIN-DAEMON/quantize/inspect-imatrix.py:1088-1134 | on tensors in any order no hotter tensor gets a later tier than a cooler one |
| RegexLite.EscapeKeepsPrefixes | BRAIN-DAEMON/quantize/inspect-imatrix.py:992-994 | escaping keeps prefixes and makes no new ones, so different names have different rules |
| RegexLite.UnescapeRecovers | BRAIN-DAEMON/quantize/brain-quant.py:2119-2120 | un-escaping an escaped name gives it back if and only if it holds no backslash |
| PatternMeaning.EscapedCharacters | BRAIN-DAEMON/quantize/inspect-imatrix.py:992-994 | which characters get a backslash, and that no other changes |
| RegexLite.EscapedFindsContaining | BRAIN-DAEMON/quantize/inspect-imatrix.py:1249-1250 | an escaped name as a pattern finds exactly the names that contain it |
| PatternMeaning.MatchesBySplitting | BRAIN-DAEMON/quantize/inspect-imatrix.py:373-380 | tokens match at the start of a text if and only if it starts with parts they stand for, one after the other |
| PatternMeaning.SearchSplits | BRAIN-DAEMON/quantize/inspect-imatrix.py:373-380 | a sequence of tokens written as a pattern is found in a text if and only if some part of the text splits so |
| PatternMeaning.ShippedPinsFind | BRAIN-DAEMON/quantize/inspect-imatrix.py:373-380 | the shipped pins find exactly the names with `_norm.` behind at least one character, and those of the two routers and three small families |
| QuantFlags.PlainFamilyFound | BRAIN-DAEMON/quantize/brain-quant.py:610-617 | a family pattern without characters that mean something in it finds exactly the names that contain the family and a dot |
| PresetEmitter.FamilyIsCaptured | BRAIN-DAEMON/quantize/inspect-imatrix.py:997-1003 | the family is what the pattern captures, a dotless segment right before the suffix, and `_other` for names it does not find |
| PresetEmitter.NameContainsItsFamily | BRAIN-DAEMON/quantize/inspect-imatrix.py:997-1003 | a tensor of a named family has the family's name and a dot in its own |
| PresetEmitter.FamiliesAreDistinct | BRAIN-DAEMON/quantize/inspect-imatrix.py:1219-1221 | each family is listed once, and exactly the families with tensors are |
| PresetEmitter.FamiliesFirstAppear | BRAIN-DAEMON/quantize/inspect-imatrix.py:1219-1221 | and stands where its first tensor does |
| PresetEmitter.MembersInOrder | BRAIN-DAEMON/quantize/inspect-imatrix.py:1219-1221 | a family's members are all its tensors, in input order |
| PresetEmitter.GroupByFamily | BRAIN-DAEMON/quantize/inspect-imatrix.py:1219-1221 | the groups are the tensors of each family in input order |
| PresetEmitter.BonusDominates | BRAIN-DAEMON/quantize/inspect-imatrix.py:1241-1245 | a bonus is part of its family, and no tensor of it is cooler than one left out |
| PresetEmitter.BonusIsRoundedUp | BRAIN-DAEMON/quantize/inspect-imatrix.py:1226-1243 | the count of a family of n tensors with fraction f: none if f is not positive or the family has the bonus type by its own choice or by the base's, else at least one and n f rounded up |
| PresetEmitter.EmittedBonus | BRAIN-DAEMON/quantize/inspect-imatrix.py:1223-1245 | on the emitted names: none of such a family, else n f rounded up, or all, and nobody left out is hotter |
| PresetEmitter.ChooseBonus | BRAIN-DAEMON/quantize/inspect-imatrix.py:1223-1245 | exactly the tensors in some family's bonus are named, and exactly the families with a bonus are counted; with distinct names and fractions up to one there are as many names as counted |
| PresetEmitter.CleanDropsOnlyBase | BRAIN-DAEMON/quantize/inspect-imatrix.py:1252-1257 | exactly the entries that are not base remain |
| PresetEmitter.CleanKeepsKeys | BRAIN-DAEMON/quantize/inspect-imatrix.py:1252-1257 | each family remains at most once |
| PresetEmitter.CleanKeepsOrder | BRAIN-DAEMON/quantize/inspect-imatrix.py:1252-1257 | in their order |
| PresetEmitter.RemaindersPartition | BRAIN-DAEMON/quantize/inspect-imatrix.py:1259-1283 | bonus, family remainders and base remainder always add up to the number of tensors |
| PresetEmitter.CountsPartition | BRAIN-DAEMON/quantize/inspect-imatrix.py:1259-1283 | the counts shown add up to the number of tensors if and only if no remainder is negative |
| PresetEmitter.LargeFractionOvershoots | BRAIN-DAEMON/quantize/inspect-imatrix.py:1241-1243 | a concrete overshoot: one tensor and a fraction of two |
| PresetEmitter.FittingFractionsNeverOvershoot | BRAIN-DAEMON/quantize/inspect-imatrix.py:1183-1187 | fractions up to one never make a remainder negative |
| PresetEmitter.CountFamilies | BRAIN-DAEMON/quantize/inspect-imatrix.py:1268-1274 | listed are exactly the explicit families of which the bonus leaves something, each with what it leaves |
| PresetEmitter.CountBase | BRAIN-DAEMON/quantize/inspect-imatrix.py:1275-1283 | what the bonus leaves of the other families together, if that is positive, else nothing |
| PresetEmitter.ShippedPinsTakeTheBonusType | BRAIN-DAEMON/quantize/inspect-imatrix.py:1204-1208 | whatever the bonus type, replacing `=F16` in the shipped pins gives the same patterns with that type |
| PresetEmitter.PinInText | BRAIN-DAEMON/quantize/inspect-imatrix.py:1201-1203 | a given pin for F16 gets the bonus type, and one for another type is left alone |
| PresetEmitter.EmitPresetCustom | BRAIN-DAEMON/quantize/inspect-imatrix.py:1172-1307 | the preset's families, its bonus names without repetition, its pins (given ones with another type than F16 keep it), and when its counts partition the tensors |
| QuantFlags.MappedTypesAreRaw | BRAIN-DAEMON/quantize/brain-quant.py:559-568 | mapping a type twice changes nothing |
| FlagMeaning.TypeMap | BRAIN-DAEMON/quantize/brain-quant.py:559-568 | the ten mixes and the raw types they stand for; any other name is passed on |
| FlagMeaning.OverrideInText | BRAIN-DAEMON/quantize/brain-quant.py:602-609 | an override keeps what stands before its last equals sign and its type is mapped; one without stays as it is |
| FlagMeaning.FamilyInText | BRAIN-DAEMON/quantize/brain-quant.py:611-617 | a family adds one rule in its place unless its type is empty or `base` |
| FlagMeaning.LeadingWords | BRAIN-DAEMON/quantize/brain-quant.py:570-600 | for every configuration, word by word: `--allow-requantize` exactly for a source that is neither F16 nor BF16, and the two embedding flags with their type exactly for a preset that preserves them, by choice or, when nothing is configured, by name |
| FlagMeaning.TrailingWords | BRAIN-DAEMON/quantize/brain-quant.py:602-617 | behind them every rule stands after its own `--tensor-type` |
| FlagMeaning.RulesInOrder | BRAIN-DAEMON/quantize/brain-quant.py:579-617 | the rules are the mapped overrides in order, then the families'; three fixed ones for an unconfigured preset with a dynamic name, and none for another |
| QuantFlags.SplitRule | BRAIN-DAEMON/quantize/brain-quant.py:605-608 | a rule splits at its last equals sign into its pattern and its type |
| QuantFlags.Settle | BRAIN-DAEMON/quantize/brain-quant.py:570-600 | the flags before the rules and the overrides in force, with the fallback by name |
| QuantFlags.AddRules | BRAIN-DAEMON/quantize/brain-quant.py:602-609 | one flag per override, in order |
| QuantFlags.AddFamilies | BRAIN-DAEMON/quantize/brain-quant.py:611-617 | one flag per family with a type of its own, in order, after the overrides |
| QuantFlags.BuildQuantizeOverrides | BRAIN-DAEMON/quantize/brain-quant.py:543-619 | the whole command line |
| QuantFlags.FlagsCarryTheRules | BRAIN-DAEMON/quantize/brain-quant.py:571-619 | reading the rules off the command line gives exactly the mapped overrides, then the families, whatever the other flags are |
| QuantFlags.MappingKeepsMatches | BRAIN-DAEMON/quantize/brain-quant.py:602-609 | for any rules mapping changes the type of the first match and nothing else |
| QuantFlags.FirstOfSameType | BRAIN-DAEMON/quantize/brain-quant.py:553-554 | among rules of one type some rule matches exactly when some pattern is found |
| QuantFlags.FirstOfFamilies | BRAIN-DAEMON/quantize/brain-quant.py:611-617 | among the family rules the first family found in the name decides, whatever characters the families' names have |
| PresetMeaning.FlagsDecide | BRAIN-DAEMON/quantize/brain-quant.py:553-619 | the first matching rule of a compiled preset: the first pin found with its own type, else the bonus type by a bonus name in the tensor's, else the first family in it, else none |
| PresetMeaning.ReadBack | BRAIN-DAEMON/quantize/brain-quant.py:2112-2127 | the builder's sets of exact names and pins |
| PresetMeaning.BlockNamesRecovered | BRAIN-DAEMON/quantize/brain-quant.py:2115-2121 | the builder recovers exactly the bonus tensors below `blk.` if and only if none of their names holds a backslash |
| PresetMeaning.PinsReadBack | BRAIN-DAEMON/quantize/brain-quant.py:2122-2127 | the builder's pins find exactly what the pins of the bonus type and the bonus names outside `blk.` find |
| PresetMeaning.EstimateDecides | BRAIN-DAEMON/quantize/brain-quant.py:1520-1545 | the type estimated for a tensor, by its own name and its own family |
| PresetMeaning.FamiliesAgree | BRAIN-DAEMON/quantize/brain-quant.py:1538-1542 | the first family found in a name is the tensor's own exactly when its own is found and no listed family gets there first |
| PresetMeaning.DecisionsAgree | BRAIN-DAEMON/quantize/brain-quant.py:561-619 | flags and estimate decide a tensor by the same rule if and only if the first pin found has the bonus type or, with no pin found, no other bonus name and no other family gets at its name first |
| PresetMeaning.CompilingKeepsMeaning | BRAIN-DAEMON/quantize/brain-quant.py:561-619 | a tensor is quantized as estimated, up to the type map, if and only if nothing shadows it or what does names the same type |
| PresetMeaning.WholePresetKeepsMeaning | BRAIN-DAEMON/quantize/brain-quant.py:561-619 | if no pin of another type and no other bonus name is found in any tensor's name, and of the families its own and no other, the whole model is quantized as estimated |
| PresetMeaning.OwnFamilyIsFound | BRAIN-DAEMON/quantize/brain-quant.py:610-617 | the flag of a named family finds the family's tensors whenever the name has no character with a meaning in a pattern |
| PresetMeaning.OtherFamilyIsNotCompiled | BRAIN-DAEMON/quantize/brain-quant.py:1487-1490 | for a tensor without a family and without `_other.` in its name, the estimate takes the type chosen for `_other` and the flags do not |
| PresetMeaning.OtherFamilyIsLost | BRAIN-DAEMON/quantize/brain-quant.py:1487-1490 | a concrete one: `blk.0.ssm_a` is estimated as Q8_0 and no flag finds it |
| PresetMeaning.SuffixFamilyShadows | BRAIN-DAEMON/quantize/brain-quant.py:553-619 | a concrete preset where a family ending another's name takes its tensors |
| PresetMeaning.DigitFamilyShadows | BRAIN-DAEMON/quantize/brain-quant.py:553-619 | a concrete preset where neither family ends the other and the flags still disagree with the estimate |
| PresetMeaning.EmbeddingsAgree | BRAIN-DAEMON/quantize/brain-quant.py:595-600 | for every source tag, with F16 as top type for F16 and BF16 and else Q8_0 (lines 91-94): each kind of embedding tensor, `token_embd` and `output`, gets its estimated type from its own flag |
| PresetMeaning.ShippedPinsAreBroad | BRAIN-DAEMON/quantize/inspect-imatrix.py:373-380 | none of the shipped pins is mistaken for an exact name, and the first one found in a name has the bonus type |
| PresetSizes.BytesGrow | BRAIN-DAEMON/quantize/brain-quant.py:1493-1496 | more bits per weight never make a tensor smaller |
| SizeMeaning.BitsOfTypes | BRAIN-DAEMON/quantize/brain-quant.py:1478-1484 | the bits per weight of the thirteen known types, and the tensor's own for any other |
| SizeMeaning.BytesOfBits | BRAIN-DAEMON/quantize/brain-quant.py:1493-1496 | a tensor takes as many whole bytes as its bits fill |
| SizeMeaning.EstimateInOrder | BRAIN-DAEMON/quantize/brain-quant.py:1520-1545 | which choice decides a tensor's estimated type: kept as in the source, embedding, pin or bonus, the family's own, the base |
| SizeMeaning.TiersInOrder | BRAIN-DAEMON/quantize/brain-quant.py:1595-1634 | which choice decides its row and the row's type: kept, no row for embeddings, bonus, family, pin, base |
| SizeMeaning.TotalsAdd | BRAIN-DAEMON/quantize/brain-quant.py:1518-1550 | both totals of two lists of tensors are the sums of theirs |
| PresetSizes.EstimatePresetSize | BRAIN-DAEMON/quantize/brain-quant.py:1499-1550 | the two totals |
| PresetSizes.ComputeTierSizes | BRAIN-DAEMON/quantize/brain-quant.py:1553-1640 | the rows in order of first appearance |
| PresetSizes.EntriesAreTheirTensors | BRAIN-DAEMON/quantize/brain-quant.py:1636-1640 | each row weighs what its tensors weigh, and no row appears twice |
| PresetSizes.TypesAgree | BRAIN-DAEMON/quantize/brain-quant.py:1595-1634 | both functions give a tensor the same type if and only if it is not pinned with another explicit family type |
| PresetSizes.BytesAreConserved | BRAIN-DAEMON/quantize/brain-quant.py:1565-1566 | for every header and preset: rows, skipped embeddings and what the conflicted tensors lack add up to the estimate |
| PresetSizes.TiersMakeUpTheEstimate | BRAIN-DAEMON/quantize/brain-quant.py:1565-1566 | without conflicted tensors rows and skipped embeddings add up to the estimate |
| PresetSizes.TiersNeverOverstate | BRAIN-DAEMON/quantize/brain-quant.py:1597-1636 | if the top type is the largest, what is lacking is never negative, and nothing only if every conflicted tensor weighs the same either way |
| PresetSizes.TiersFallShort | BRAIN-DAEMON/quantize/brain-quant.py:1565-1566 | a concrete conflicted tensor: `blk.0.ssm_alpha.weight`, pinned and of an explicitly typed family, 8 bytes in its row and 16 in the estimate |
| PresetPipeline.EmittedPresetsAreFit | BRAIN-DAEMON/quantize/brain-quant.py:2087-2098 | from types without an equals sign and tensor names without a backslash the emitter makes a preset that can be compiled and read back |
| PresetPipeline.BuildPreset | BRAIN-DAEMON/quantize/brain-quant.py:2087-2140 | the whole way from statistics to flags and estimate, for all choices and names; without equals signs and backslashes every model tensor that stands apart is quantized as the estimate assumes, and so is every embedding tensor whatever the characters |

## Left out

* Subprocesses, signals' delivery, sysfs, power limits and their ramp, GPU levels and all readings of the system: inputs,
  or outputs recorded as writes and signals.
* HTTP routes, streaming transport, heartbeat events, terminal output, and the interactive builder around the preset
  functions, including `preserve_existing_f16` in the compiled flags.
* UTF-8: strings are sequences of characters or bytes, names in GGUF files are compared as bytes, and paragraph sizes
  are given in bytes. The regular expressions of `strip_noise`, paragraph splitting and whitespace collapsing are not
  modelled; neither are MinHash and its index.
* Floating-point rounding: temperatures, times, energies, fractions and sizes are reals; truncation is explicit.
* Python's limits: the recursion limit in deeply nested arrays, and offsets beyond what a file seek accepts.
* Interleaving inside a step: cancellation in the middle of an await, a second worker after stopping and starting at
  once, the manager's `stop`, and changes to the instance table between two rounds of one eviction call. A job's fresh
  id is assumed unused.
* JSON text and files: a saved state is the list of dictionaries.
* The choice among runners and their own work; a run ends by returning, with or without a cancellation, or by raising.
  Excluded from the runs is a log file that fails to close after a cancellation (LateCloseFailureEndsTwice).
* The swap flush itself: its effect on the swap percentage is part of the tick's input.
* How unloading a model fails: an evicted model is gone from the table. The direct request to evict a named model is
  not modelled.
* Tensor type names, per-tensor sizes from the header and sharded headers.
* The per-family preset emitter and the profiles of the cumulative one; a tier is its position among the cuts.
* Dictionaries are sequences of pairs with distinct keys where their order matters. Bonus rules are listed in some
  order instead of sorted; they all carry the same type, so their order changes no match.
* A tensor name that ends in a newline after `.weight`, which the family pattern would still accept.
* How the rows' titles are found among the tier counts: they are inputs, so no total depends on them.
* What the quantizer does with a rule beyond taking the first that matches, and with the embedding tensors beyond their
  two dedicated flags. The quantizer and Python are taken to read a pattern alike, and every pattern to be one.
- NestedArraysOvershoot: only when the first inner array is not empty. With several inner arrays of which the first is
  empty, whether the whole is skipped exactly depends on how the following bytes read as string lengths; SingleNestedArray
  decides it for one, and SomeNestedArraysAreSkipped shows that it happens.
- LoadState: a record whose fields have values of another type, or whose status is none of the six, ends the loading,
  where Python would accept it unchecked; jobs are typed here.
- EmergencyHeldUnlessResumedLate: the clock does not run backwards.
- PlainFamilyFound: only names without such characters, since the source compiles a family name as it stands and one
  that is itself a pattern stands for other tensors than those named after it; FamilyFound has no such limit.
- OwnFamilyIsFound: the same.
- TiersMakeUpTheEstimate: one direction, because differences of several tensors could cancel; BytesAreConserved is the
  exact law, and TiersNeverOverstate its converse when the top type is the largest.
- LeaveEmergency: the power limits lowered before CONT are not part of the state.
- RemoveStream: a queue belongs to one job, so the job's id is not a separate argument.

# A model of the pbsgui backup engine

pbsgui backs up files, Active Directory and SQL Server databases to Proxmox Backup Server (PBS). It promises
two things: nothing is committed unless it is whole, and whatever is committed can be restored. This project
models the code behind that promise in Dafny and proves it, together with the scheduling, the SQL Server log
chain rules, the relay protocol and the job store that decide when and where a backup happens.

Concurrent code is modelled as transition systems: a `State`, an `Event`, a function `Next` that is one atomic
step, and `Run` over any sequence of events. Every theorem about such a system holds for every sequence, that
is for every interleaving, every failure and every cut. Sequential code that works in place is modelled as
methods with loops and as classes; code made of expressions is modelled as functions.

Modules, from the bytes up:

* `Wrappers`, `Bytes`, `Text`: results, little-endian integers, strings.
* `Proto`: the relay's frame codec. `Relay`, `RelaySafety`: one relayed backup session, from the SQL device to
  the reader, at byte level. `Registry`: registered agents and sessions waiting for their data connection.
  `StreamReader`: the local stream with its verdict.
* `DataBlob`, `DynamicIndex`: chunk framing with compression and encryption, and the dynamic index file.
* `Upload`, `UploadSafety`, `UploadProgress`: the deduplicated upload. `Restore`, `Pipeline`: sequential and
  windowed restore. `RoundTrip`: backup then restore. `RelayBackup`: relay and upload composed. `FixedImage`: the
  sequential backup and restore of fixed-size images.
* `Chain`: which full and logs are replayed. `Plan`, `SqlJob`: what a SQL job does with a database, over all runs of
  one job. `Cluster`, `ClusterTakers`, `ClusterReplay`, `ClusterFulls`: the same over all replicas of an availability
  group, with log positions: who takes the logs, and which of them can be restored.
* `Calendar`, `Scheduler`, `SqlTimers`, `RetryStorm`, `Starvation`: when jobs are due, over whole runs of the
  scheduler.
* `Glob`, `ExpandEnv`: wildcard matching and `%VAR%` expansion. `Repository`: the repository string.
* `Jobs`, `JobRace`, `JobStore`: snapshot groups, their isolation, also among requests handled at the same time,
  and the concurrent job store.

## Assumptions

* SHA-256, CRC-32, zstd, AES-256-GCM, key derivation and JSON are function-valued parameters. Decompression
  undoes compression, decryption undoes encryption, and the JSON decoder undoes the encoder (`DataBlob.Laws`,
  `Proto.JsonLaws`). Nothing assumes that hashes never collide: theorems that need it say that no two different
  chunks of the run share a digest (`Upload.CollisionFree`).
* Of the datastore an upload finds, only the run's own digests matter: what is already stored under a chunk's
  digest is that chunk, readable under the run's key mode, and a chunk reused from the previous index is there
  with its size (`Upload.PriorSound`). Chunks of other jobs, keys and key modes may lie beside them.
* Of the datastore a restore finds, only the archive's own chunks matter, and only that they still read back
  (`RoundTrip.StillThere`).
* Bytes of the relay connection that arrive are a prefix of the bytes accepted, and a connection on which a
  write failed accepts nothing more.
* Local time: a gap is at most an hour, the same time on a later day comes later, and a clock change never
  moves a time of day past the end of the following day or before its own day (`Scheduler.ZoneLaws`).
* The clock of the scheduler does not go back, and writes of the timer state succeed.
* SQL Server takes backups only while the group has a primary, and in a basic group only on it; a normal full only
  on the primary of the moment, a copy-only full anywhere and a log only onto an unbroken chain. A normal full
  outside SIMPLE recovery that SQL Server completes starts a chain, whether or not its upload succeeds. A log reaches
  from where the last completed log, or the start of the chain, left off. Every backup moves the log on.
  A snapshot that landed although its BACKUP statement then failed is whole, but the chain does not move.
* The job is set up on every replica of its availability group, and while the group has no primary no replica is the
  preferred one.

## What holds only under a condition

The model follows the code, also where comments or documentation promise more. Each of these points has a lemma
that says exactly when the promise holds, or shows a case in which it does not.

* A plaintext archive does not restore when a key is supplied, although
  crates/pbsgui-engine/src/handler.rs:519-521 expects it to: the digest to compare is chosen by whether a key is
  present, not by the blob. It restores exactly when no chunk's digest changes with the key
  (`RoundTrip.PlaintextArchiveUnderKey`).
* The wildcard matcher is wrong on some pattern exactly when the text itself contains a star
  (`Glob.ExactlyStarFreeTexts`).
* A time skipped by a clock change moves one hour on, which is the end of the gap only if the time was an hour
  before that end (`Scheduler.SkippedTimeMoves`).
* A lone percent sign does not end the scan for variables, although crates/pbsgui-ad-engine/src/matchspec.rs:31
  says it does. That makes no difference to a path exactly when nothing after the sign is a
  reference, and none to an environment exactly when every known name stands for itself (`ExpandEnv.AgreeUnderAll`,
  `ExpandEnv.AgreeOnAll`, `ExpandEnv.AgreeExactly`).
* PBS can hold a log without a full: for jobs with two different databases, and on failover cluster instances
  (`SqlJob.NoLogWithoutFull`).
* A failing full can keep a due log waiting for ever: exactly when by every tick a full has come due again since the
  failure before it (`Starvation.StarvedExactly`, `RetryStorm.LogsAfterFailedFull`).
* Two replicas can take logs under one role assignment, in some run, exactly when the group is not basic and has at
  least two replicas (`ClusterTakers.OneTakerExactly`): the roles move between a decision and its backup. Runs in
  which every log is taken by the replica preferred at that moment have one taker
  (`Cluster.PreferredTakersAreOne`).
* PBS can hold logs of an availability group's job without a full of that job, although
  crates/pbsgui-engine/src/sql/plan.rs:15-18 says never: exactly when a full that starts a chain can fail to land or be
  someone else's, and either there are two replicas in a group that is not basic, or full runs start on replicas that
  are not the primary (`ClusterFulls.OwnFullFirstExactly`).
* A log of the job replays onto a full of the job exactly when there was a chain after that full and no log in between
  was lost, taken by someone else or cut off by a break (`ClusterReplay.LogReplaysExactly`); over all runs exactly
  when nobody else takes backups and whatever SQL Server completes lands (`ClusterFulls.OwnReplayExactly`).
* A relay session whose call is over leaves its slot behind exactly when the call was dropped while it waited and
  neither a data connection nor a failure report has named the session since (`Registry.SlotLeftExactly`).
* Save requests handled at the same time can store colliding jobs: exactly when one is stored over a colliding job
  that came in since its validation (`JobRace.IsolatedExactlyWithoutRace`).
* A truncated index file can pass both its parse and its checksum, exactly when the entries kept hash like all of
  them (`DynamicIndex.TruncatedIndexAccepted`).

## Model

| member | source | states |
|---|---|---|
| Proto.WriteRaw | crates/pbsgui-engine/src/relay/proto.rs:135-153 | writes exactly the encoded frame, or refuses an oversized payload and writes nothing |
| Proto.ReadFrame | crates/pbsgui-engine/src/relay/proto.rs:156-189 | consumes one frame as the reference decoder does: clean end only at the very start of a header, an error inside a frame |
| Proto.ReadWhole | crates/pbsgui-engine/src/relay/proto.rs:156-189 | an encoded frame followed by anything reads back as that frame and its exact length |
| Proto.ReadCut | crates/pbsgui-engine/src/relay/proto.rs:156-189 | every strict prefix of one frame is a clean end if empty and an error otherwise |
| Proto.DecodeWhole | crates/pbsgui-engine/src/relay/proto.rs:135-189 | decoding the concatenation of any frames gives back those frames and then a clean end |
| Proto.DecodePrefix | crates/pbsgui-engine/src/relay/proto.rs:135-189 | decoding any prefix gives exactly the frames wholly inside it |
| Proto.CleanEndOnlyOnBoundary | crates/pbsgui-engine/src/relay/proto.rs:156-189 | a cut stream ends cleanly if and only if the cut is on a frame boundary |
| DataBlob.ChunkRoundTrip | crates/pbs-client/src/session.rs:1394-1436 | whatever the key and the compression setting, an encoded chunk decodes and verifies to its data |
| DataBlob.FramedRoundTrip | crates/pbs-client/src/blob.rs:42-129 | plain and compressed framing undone by the decoder, checksum included |
| DataBlob.EncryptedRoundTrip | crates/pbs-client/src/crypt.rs:91-171 | encrypted framing, compressed or not, undone by decryption under the same key |
| DataBlob.PlaintextBlobUnderKey | crates/pbs-client/src/session.rs:1418-1436 | a blob that reads back without a key reads the same under one but verifies only if its keyed and plain digests coincide |
| DataBlob.NeverInflates | crates/pbs-client/src/blob.rs:91-101 | a chosen encoding is never longer than the uncompressed one, which is the header longer than the data |
| DataBlob.PlaintextChunkUnderKey | crates/pbs-client/src/session.rs:1418-1436 | a chunk written without a key verifies under a key if and only if its keyed and plain digests coincide |
| DataBlob.EncryptedChunkWithoutKey | crates/pbs-client/src/session.rs:1394-1416 | an encrypted chunk never decodes without a key |
| DynamicIndex.DynamicIndexBuilder.constructor | crates/pbs-client/src/index.rs:196-203 | an empty builder with the given time and id |
| DynamicIndex.DynamicIndexBuilder.Push | crates/pbs-client/src/index.rs:205-207 | appends one entry and changes nothing else |
| DynamicIndex.DynamicIndexBuilder.Serialize | crates/pbs-client/src/index.rs:227-250 | the buffer written at offsets is the index layout of the builder's entries and checksum |
| DynamicIndex.ParseOfLayout | crates/pbs-client/src/index.rs:227-287 | parsing a serialized index gives it back |
| DynamicIndex.LayoutOfParse | crates/pbs-client/src/index.rs:254-287 | every accepted file is its index's layout except for the reserved bytes, and exactly the layout if and only if those are zero |
| DynamicIndex.ParseOfTruncated | crates/pbs-client/src/index.rs:254-287 | a file cut after whole entries parses as those entries under the old checksum |
| DynamicIndex.TruncatedIndexAccepted | crates/pbs-client/src/index.rs:254-307 | a cut file passes parse and checksum if and only if it keeps whole entries that hash to the checksum of all |
| Upload.ForeignChunksDoNotMatter | crates/pbs-client/src/session.rs:950-957 | a blob under a digest that is none of the run's chunks' changes nothing in what the run needs of the datastore |
| UploadSafety.StepInv | crates/pbs-client/src/session.rs:950-1113 | every event keeps: chunks partition the bytes cut, one task per new chunk, bounded window, server entries follow the builder |
| UploadSafety.RunInv | crates/pbs-client/src/session.rs:950-1113 | that invariant holds after every sequence of events |
| UploadSafety.HeldOnServer | crates/pbs-client/src/session.rs:1000-1063 | a chunk that was uploaded, or that the previous index had, reads back from the server with its size, whatever else the datastore holds |
| UploadSafety.AppendRebuilds | crates/pbs-client/src/session.rs:677-700 | from start offsets and stored sizes the server rebuilds the builder's end offsets and digests, and refuses none |
| UploadSafety.BatchAccepted | crates/pbs-client/src/session.rs:1060-1069 | once uploads are drained every batch of 64 is accepted and extends the server's entries to the builder's |
| UploadSafety.CloseMatches | crates/pbs-client/src/session.rs:1075-1079 | count, size and checksum at close match the server's own |
| UploadProgress.UnfailedCanFinish | crates/pbs-client/src/session.rs:950-1113 | from every state any failure-free run can be in, the upload can be continued to a committed snapshot of the stream read so far |
| RoundTrip.CommittedMeansWhole | crates/pbs-client/src/session.rs:1000-1124 | committed means the source ended cleanly, the chunks are all its bytes, no upload is left, chunks = reused + uploaded, size = reused bytes + uploaded bytes |
| RoundTrip.BrokenSourceNeverCommits | crates/pbs-client/src/session.rs:1071-1073 | a source that failed or has not ended is never committed |
| RoundTrip.AppendOnlyAfterUploads | crates/pbs-client/src/session.rs:1060-1069 | nothing is appended to the index before every chunk it names reads back from the server |
| RoundTrip.CloseAccepted | crates/pbs-client/src/session.rs:1075-1079 | the close request of a sound upload is never refused |
| RoundTrip.CommittedIndex | crates/pbs-client/src/session.rs:1000-1079 | the committed index is the builder's and each chunk it names decodes to the chunk received |
| RoundTrip.IndexReadsBack | crates/pbs-client/src/session.rs:1229-1247 | the stored index file parses, passes its checksum and lists the chunks' digests in order |
| RoundTrip.BackupThenRestore | crates/pbs-client/src/session.rs:936-1260 | restoring a committed archive gives exactly the bytes read, for every chunking, key, compression, dedup set and upload order, and whatever else the datastore holds or loses |
| RoundTrip.StreamedPrefix | crates/pbs-client/src/session.rs:1299-1388 | a streamed restore has at any moment emitted a prefix of the chunks that were backed up |
| RoundTrip.BackupThenStreamedRestore | crates/pbs-client/src/session.rs:1299-1388 | a windowed restore that ends well with its consumer alive has emitted exactly the bytes backed up |
| RoundTrip.PlaintextArchiveUnderKey | crates/pbs-client/src/session.rs:1418-1436 | a committed plaintext archive restores under a key if and only if every chunk's keyed digest is its plain one, and then to the bytes read |
| Restore.RestoreDynamicArchive | crates/pbs-client/src/session.rs:1229-1260 | the sequential loop returns the concatenation of all verified chunks or the first error |
| Restore.FetchAllPointwise | crates/pbs-client/src/session.rs:1240-1258 | the restore succeeds with given chunks if and only if each digest fetches to its chunk |
| Restore.FetchAllFailsEarly | crates/pbs-client/src/session.rs:1240-1258 | the error returned is that of the first digest that fails |
| Pipeline.PipelineWidth | crates/pbs-client/src/session.rs:80-90 | half the cores within 2 to 16 unless overridden, never zero |
| Pipeline.StepInv | crates/pbs-client/src/session.rs:1330-1382 | emitted, in flight and remaining digests partition the index in order, at most the window in flight |
| Pipeline.RunInv | crates/pbs-client/src/session.rs:1330-1382 | that invariant holds in every schedule |
| Pipeline.RefinesSequential | crates/pbs-client/src/session.rs:1330-1388 | in every schedule the consumer sees a prefix of the sequential restore, and success with a live consumer means all of it |
| Pipeline.FailureSurfaces | crates/pbs-client/src/session.rs:1330-1388 | when the sequential restore fails no schedule reports success to a live consumer |
| Pipeline.EveryEventUsesWork | crates/pbs-client/src/session.rs:1330-1382 | every event of every schedule reduces a bounded measure |
| Pipeline.RunsAreBounded | crates/pbs-client/src/session.rs:1330-1382 | no schedule is longer than six events per chunk and three more |
| Pipeline.Progress | crates/pbs-client/src/session.rs:1330-1382 | until it is done the pipeline can always take a step other than losing its consumer |
| FixedImage.FixedParseOfLayout | crates/pbs-client/src/index.rs:98-164 | parsing the file layout of a fixed index gives the index back |
| FixedImage.PiecesAreImage | crates/pbs-client/src/session.rs:768 | the chunks of an image joined are the image |
| FixedImage.UploadPieces | crates/pbs-client/src/session.rs:763-790 | the loop with its batches of 64 succeeds exactly when the connection answers every request, and then the index names every chunk in order and every chunk reads back |
| FixedImage.BackupFixedImage | crates/pbs-client/src/session.rs:752-815 | succeeds exactly when every request is answered and is committed exactly then or when only the last answer is lost; a committed index is whole and every chunk reads back |
| FixedImage.RestoreFixedImage | crates/pbs-client/src/session.rs:1206-1226 | the loop returns the verified chunks joined and cut to the declared size, or the first error |
| FixedImage.FixedBackupThenRestore | crates/pbs-client/src/session.rs:752-1226 | restoring a stored image from its index file gives exactly the image |
| StreamReader.ChannelWriter.constructor | crates/pbsgui-ad-engine/src/stream.rs:26-31 | nothing written yet |
| StreamReader.ChannelWriter.Write | crates/pbsgui-ad-engine/src/stream.rs:35-45 | appends all the data, sends only full buffers, fails exactly when one is due and the receiver is gone |
| StreamReader.ChannelWriter.Flush | crates/pbsgui-ad-engine/src/stream.rs:47-57 | after a flush everything written has been sent |
| StreamReader.ChannelReader.constructor | crates/pbsgui-ad-engine/src/stream.rs:71-79 | everything sent is pending, confirmed only by a good verdict |
| StreamReader.ChannelReader.Read | crates/pbsgui-ad-engine/src/stream.rs:83-114 | gives the next pending bytes; with none left, end of file if confirmed and an error otherwise, on every call |
| StreamReader.ChannelReader.ReadToEnd | crates/pbsgui-engine/src/relay/server.rs:353-386 | reading to the end gives exactly what was sent if confirmed and an error otherwise |
| RelaySafety.PumpSees | crates/pbsgui-engine/src/relay/server.rs:270-308 | whatever part of the wire has arrived, the pump only ever reads the next frame the agent wrote |
| RelaySafety.StepInv | crates/pbsgui-engine/src/relay/agent.rs:357-438 | every step of device, agent, network, pump and reader keeps the account of every byte |
| RelaySafety.RunInv | crates/pbsgui-engine/src/relay/agent.rs:357-438 | that account holds after every interleaving |
| RelaySafety.EofMeansWhole | crates/pbsgui-engine/src/relay/server.rs:353-386 | end of file means the device closed cleanly, no send failed and the reader gave the device's whole output |
| RelaySafety.OutputIsPrefix | crates/pbsgui-engine/src/relay/server.rs:270-308 | what the reader has given is always a prefix of what the device wrote |
| RelaySafety.FailureIsNeverEof | crates/pbsgui-engine/src/relay/agent.rs:394-422 | after a device fault, a failed send, a dead agent or a verdict lost to a cut the reader never reports end of file |
| RelayBackup.RunProjects | crates/pbsgui-engine/src/relay/server.rs:154-183 | every run of relay and upload together is a run of each, linked by the bytes read |
| RelayBackup.TruncatedNeverCommits | crates/pbs-client/src/session.rs:1000-1113 | if the snapshot is ever committed, the device closed cleanly and exactly its whole output was uploaded |
| RelayBackup.RestoredIsDeviceOutput | crates/pbs-client/src/session.rs:936-1260 | restoring a committed relayed backup gives exactly what the device wrote |
| Registry.Newest | crates/pbsgui-engine/src/relay/server.rs:466-478 | the last registration of a name, none after it |
| Registry.AgentsStep | crates/pbsgui-engine/src/relay/server.rs:466-500 | every event keeps each name pointing to its newest live connection |
| Registry.SessionsStep | crates/pbsgui-engine/src/relay/server.rs:215-265 | every event keeps a session's slot, taken message and delivered message exclusive and genuine |
| Registry.RunInv | crates/pbsgui-engine/src/relay/server.rs:389-535 | both hold after every interleaving |
| Registry.NamesPointToNewest | crates/pbsgui-engine/src/relay/server.rs:466-500 | a name is listed if and only if its newest connection has not ended, and then points to it; a stale exit removes nothing newer |
| Registry.StreamsReachTheirSession | crates/pbsgui-engine/src/relay/server.rs:389-417 | a stream returned greeted with that session's id and its agent's token, and no other session gets it |
| Registry.OneMessagePerSession | crates/pbsgui-engine/src/relay/server.rs:215-265 | a session is sent at most one message, and none while its slot is listed |
| Registry.NoSlotAfterReturn | crates/pbsgui-engine/src/relay/server.rs:240-265 | no slot remains after the call returned, whichever way |
| Registry.SlotLeftExactly | crates/pbsgui-engine/src/relay/server.rs:215-265 | a call that is over has left its slot if and only if it was dropped while waiting and no greeting and no failure report has named the session since the insertion |
| Registry.DroppedCallLeavesSlot | crates/pbsgui-engine/src/relay/server.rs:236-250 | a call dropped while waiting leaves its slot: a run that shows it |
| Chain.ParseLsnOfDecimal | crates/pbsgui-engine/src/sql/backupmeta.rs:61-69 | a decimal sequence number below 2 to the 128 parses to its value |
| Chain.WrittenReadsBack | crates/pbsgui-engine/src/sql/backupmeta.rs:29-69 | metadata written with its kind and decimal sequence numbers is read back as the items that were backed up |
| Chain.UnreadableLogIsNeverPicked | crates/pbsgui-engine/src/sql/backupmeta.rs:61-90 | a log whose last sequence number does not parse is in no chain |
| Chain.Select | crates/pbsgui-engine/src/sql/backupmeta.rs:71-102 | picking the full, collecting the logs, sorting them in place and pushing up to the target selects the specified chain |
| Chain.SortInPlace | crates/pbsgui-engine/src/sql/backupmeta.rs:90 | sorting the array by swaps gives the stable sort of its old contents |
| Chain.SortIsStable | crates/pbsgui-engine/src/sql/backupmeta.rs:90 | logs with equal first sequence numbers keep their order |
| Chain.StableSortIsUnique | crates/pbsgui-engine/src/sql/backupmeta.rs:90 | any sorted list that keeps that order is this one, whichever stable sort made it |
| Chain.BestFullIsLatest | crates/pbsgui-engine/src/sql/backupmeta.rs:71-82 | the full chosen finished at or before the target and no eligible full finished later |
| Chain.SelectedShape | crates/pbsgui-engine/src/sql/backupmeta.rs:71-102 | the full first, then logs ending past it in order of first sequence number, every log but the last finished before the target |
| Chain.CoverageIsExact | crates/pbsgui-engine/src/sql/backupmeta.rs:104-114 | the chain covers the target if and only if some log past the full finished at or after it, or there is none and the full finished at it |
| Chain.ReplayIsValid | crates/pbsgui-engine/src/sql/backupmeta.rs:71-102 | when the stored logs form a gap-free chain spanning the full, every selected log applies in turn and none in between is skipped |
| Chain.OrderDoesNotMatter | crates/pbsgui-engine/src/sql/backupmeta.rs:71-102 | any order of the same items selects the same chain when full times and log starts are distinct |
| Calendar.PredDayNumber | crates/pbsgui-engine/src/scheduler.rs:180-181 | the day before has the day number before, across months, years and leap years |
| Calendar.EarlierIsBack | crates/pbsgui-engine/src/scheduler.rs:180-181 | every earlier date is some number of days back |
| Calendar.DaysInMonthIsLength | crates/pbsgui-engine/src/scheduler.rs:205-215 | the day before the next month's first is the month's length |
| Calendar.FirstOfJune2026IsMonday | crates/pbsgui-engine/src/scheduler.rs:197-199 | weekdays count from Sunday and agree with the calendar |
| Scheduler.SearchBack | crates/pbsgui-engine/src/scheduler.rs:179-189 | the loop over 63 days with its early returns finds what the recursive search finds |
| Scheduler.FindLatest | crates/pbsgui-engine/src/scheduler.rs:170-191 | the latest occurrence as specified, none for manual and interval schedules |
| Scheduler.OncePerMonth | crates/pbsgui-engine/src/scheduler.rs:194-203 | a monthly schedule runs on exactly one day of every month, its day or the last |
| Scheduler.OccursBefore | crates/pbsgui-engine/src/scheduler.rs:177-179 | every accepted timed schedule has an occurrence between 2 and 62 days before any date |
| Scheduler.SearchFindsLatest | crates/pbsgui-engine/src/scheduler.rs:170-191 | for every accepted timed schedule the search succeeds with the greatest occurrence at or before now over all dates, and says truly whether it is today's |
| Scheduler.DueMeansMissedOccurrence | crates/pbsgui-engine/src/scheduler.rs:140-165 | a timed schedule that has run is due if and only if an occurrence has passed since |
| Scheduler.FirstRunWaitsForToday | crates/pbsgui-engine/src/scheduler.rs:140-165 | one that never ran is due if and only if today's occurrence has passed |
| Scheduler.SkippedTimeMoves | crates/pbsgui-engine/src/scheduler.rs:217-233 | a time in a gap lands on the gap's end if and only if it is an hour before it |
| SqlTimers.TimerStore.RecordFull | crates/pbsgui-engine/src/sqlsched.rs:76-83 | afterwards the job's last full, last log and both last attempts all read as that time; no other job reads differently |
| SqlTimers.TimerStore.RecordLog | crates/pbsgui-engine/src/sqlsched.rs:86-91 | afterwards the last log and log attempt read as that time, and what is read of the fulls, and of other jobs, is as before |
| SqlTimers.TimerStore.RecordFullAttempt | crates/pbsgui-engine/src/sqlsched.rs:112-116 | afterwards the last full attempt reads as that time, over any older success, while the last success and all of the logs read as before |
| SqlTimers.TimerStore.RecordLogAttempt | crates/pbsgui-engine/src/sqlsched.rs:119-123 | afterwards the last log attempt reads as that time, over any older success, and everything else reads as before |
| SqlTimers.TimerStore.NoteNoChain | crates/pbsgui-engine/src/sqlsched.rs:95-100 | returns since when the database has had no chain, dating it now only if none was open |
| SqlTimers.TimerStore.ClearNoChain | crates/pbsgui-engine/src/sqlsched.rs:103-108 | closes the episode, writing the file only if one was open |
| SqlTimers.EpisodeKeepsItsStart | crates/pbsgui-engine/src/sqlsched.rs:93-108 | over any notes and clears, an episode is open exactly when noted since the last clear, and dated by the first such note |
| RetryStorm.StepInv | crates/pbsgui-engine/src/backup.rs:277-349 | every event of scheduler, manual runs and clock keeps scheduled runs apart and their attempts recorded |
| RetryStorm.RunInv | crates/pbsgui-engine/src/scheduler.rs:20-41 | that holds after every sequence of events, from any timers |
| RetryStorm.FullsAnswerLaterOccurrences | crates/pbsgui-engine/src/scheduler.rs:108-165 | of two scheduled fulls the first was recorded before the occurrence the second answers, whatever their outcomes |
| RetryStorm.RunsOneIntervalApart | crates/pbsgui-engine/src/scheduler.rs:108-158 | scheduled interval fulls, and scheduled logs, start at least one interval after the previous was recorded |
| RetryStorm.RunJobKind | crates/pbsgui-engine/src/backup.rs:277-364 | through every exit: already running changes nothing; otherwise a SQL run that ended well, failed or was cancelled is recorded, a cancel that came too late as a success, and only then is the claim given up |
| RetryStorm.RunningJobs.TryClaim | crates/pbsgui-engine/src/backup.rs:210-226 | claims the job if and only if it is not running, and disturbs no other claim |
| RetryStorm.RunningJobs.Release | crates/pbsgui-engine/src/backup.rs:314-349 | gives up one claim, and only when the run's kind is gated on its end |
| RetryStorm.RecordedBeforeRelease | crates/pbsgui-engine/src/backup.rs:303-349 | over every interleaving of such runs with the scheduler and the clock, the timers gate each kind at or after every run of it that gave up its claim |
| RetryStorm.DueNow | crates/pbsgui-engine/src/scheduler.rs:108-131 | what is read from the store, with its early return and its fallbacks, gives what is due |
| RetryStorm.RecordRun | crates/pbsgui-engine/src/backup.rs:341-349 | the recorder chosen by kind and outcome leaves a store that reads as the scheduler's step says, gated on that instant, other jobs untouched |
| RetryStorm.DueByReadings | crates/pbsgui-engine/src/sqlsched.rs:53-72 | what is due depends only on what is read of the state |
| RetryStorm.NotDueAtOnce | crates/pbsgui-engine/src/scheduler.rs:134-165 | under no time zone and no plan is a kind due at the instant it was recorded |
| RetryStorm.RunDue | crates/pbsgui-engine/src/scheduler.rs:73-95 | one scheduled run on the stored state, whatever its outcome: what was due is not due again when it ends, and at any time what is due is what the scheduler's step says |
| RetryStorm.LogsAfterFailedFull | crates/pbsgui-engine/src/scheduler.rs:108-131 | after a failed full a due log is taken if and only if no new full has come due since |
| RetryStorm.FullRestartsLogs | crates/pbsgui-engine/src/sqlsched.rs:74-83 | after a successful full, on any schedule, what is due is the next full once it has come due, else the log one interval on |
| RetryStorm.OlderStateCounts | crates/pbsgui-engine/src/sqlsched.rs:58-72 | state without attempt times is read as if successes had been attempts |
| Starvation.OneRound | crates/pbsgui-engine/src/scheduler.rs:28-35 | a tick starts what is due at it, a full ahead of a log, and its failure is recorded before the loop goes on |
| Starvation.StarvedExactly | crates/pbsgui-engine/src/scheduler.rs:108-131 | from any timers with a log due, on any full schedule, over any ticks at which whatever starts fails, only fulls are taken and the due log never is if and only if by every tick a full has come due, after the first one since the failure before it |
| Starvation.StarvesForever | crates/pbsgui-engine/src/scheduler.rs:21-35 | for every n a run of n ticks a minute apart, a log due at each, with n failing fulls and no log |
| SqlJob.StepInv | crates/pbsgui-engine/src/backup.rs:769-1092 | with one database and no failover cluster, every step keeps: a recorded full is on PBS and every log has an earlier full |
| SqlJob.SkippedFullRunCounts | crates/pbsgui-engine/src/backup.rs:797-812 | a full run skipped on a failover cluster counts as a full, so a log lands with none: a run that shows it |
| SqlJob.PromotionSpills | crates/pbsgui-engine/src/backup.rs:1014-1020 | the full taken for one database lets the same run log another that has none: a run that shows it, for any two databases |
| SqlJob.NoLogWithoutFull | crates/pbsgui-engine/src/backup.rs:769-1092 | PBS never holds a log without an earlier full if and only if the job names one database and no failover cluster, or none at all |
| Plan.Decide | crates/pbsgui-engine/src/sql/plan.rs:99-141 | point-in-time fulls exactly off a secondary and never copy-only; a log only where preferred and off a secondary only onto a chain and a full of this machine, else a full even where not preferred; plans without logs exactly on the preferred replica; every skip for a reason that applies |
| Cluster.StepInv | crates/pbsgui-engine/src/sql/plan.rs:99-141 | every probe, backup, failover and outside change keeps decisions sound for the roles they saw |
| Cluster.FullsAreNormalAndOnPrimary | crates/pbsgui-engine/src/sql/plan.rs:106-110 | over all failovers, no full is decided or taken on a secondary and none is copy-only, although the server would take a copy-only one there |
| Cluster.OneReplicaDecidesLogs | crates/pbsgui-engine/src/sql/plan.rs:111-131 | under one role assignment any two decisions to take the log are the same replica's |
| Cluster.TwoTakersMeanOvertaken | crates/pbsgui-engine/src/backup.rs:831-884 | two replicas take logs under one role assignment only if one decided under an earlier one and is not the preferred replica any more |
| Cluster.PreferredTakersAreOne | crates/pbsgui-engine/src/backup.rs:831-884 | a run in which every log is taken by the replica preferred at that moment has one taker per role assignment |
| ClusterTakers.MovedPreferenceLetsTwoTake | crates/pbsgui-engine/src/backup.rs:831-884 | two replicas suffice for two takers under one assignment, with no backups by others: a run that shows it |
| ClusterTakers.OneTakerExactly | crates/pbsgui-engine/src/sql/probe.rs:188-239 | no run has two takers under one role assignment if and only if the group is basic or has at most one replica |
| ClusterTakers.StaysExactly | crates/pbsgui-engine/src/backup.rs:831-884 | the only log under way is the only replica's of its whole role assignment, whatever follows until roles move, if and only if that replica is the preferred one now and no other has taken a log in this assignment |
| Cluster.PrimaryStartsChain | crates/pbsgui-engine/src/sql/plan.rs:119-122 | a log run on a primary without a chain, or without a full of its own, takes a full, preferred replica or not |
| Cluster.PreferredExtends | crates/pbsgui-engine/src/sql/plan.rs:123-129 | with a chain, a log run on the preferred replica takes the log |
| Cluster.RepairThenLog | crates/pbsgui-engine/src/sql/probe.rs:188-239 | from any state without a chain, or without the primary's own full, one log run on the primary, then anything the replicas do, lets the preferred replica's next log run take the log |
| ClusterReplay.LsnRun | crates/pbsgui-engine/src/sql/probe.rs:188-239 | in every run positions rise, every log of the job starts where the chain stood, and the chain is what the account of backups, breaks and outside backups says |
| ClusterReplay.LogReplaysExactly | crates/pbsgui-engine/src/sql/vdi.rs:154-169 | in every run a log replays onto a full of the job with the job's logs between them, up to its own end, if and only if there was a chain after the full and no log since was lost, someone else's or cut off |
| ClusterFulls.SecondaryLogsWithoutFull | crates/pbsgui-engine/src/sql/plan.rs:117-129 | a preferred secondary logs onto a full that never landed, or onto someone else's, with none of this job on PBS: a run that shows it |
| ClusterFulls.SkippedFullThenFailover | crates/pbsgui-engine/src/backup.rs:341-349 | a full run skipped on a secondary counts as its full, so once primary it logs without one: a run that shows it |
| ClusterFulls.OwnFullFirstExactly | crates/pbsgui-engine/src/sql/plan.rs:99-141 | over all runs every log on PBS follows a full of the job if and only if there is no replica, every chain is started by a full of the job that lands, or only the primary takes logs and full runs start only there |
| ClusterFulls.GapThenLog | crates/pbsgui-engine/src/sql/vdi.rs:154-169 | after a lost log, someone else's log or a chain restarted by someone else, a log lands that replays onto no full of the job: a run for each |
| ClusterFulls.OwnReplayExactly | docs/ALWAYS-ON.md:87-89 | over all runs every log on PBS replays onto a full of the job if and only if there is no replica, or nobody else takes backups and whatever SQL Server completes lands |
| Glob.GlobMatch | crates/pbsgui-ad-engine/src/matchspec.rs:49-73 | the loop with one backtrack point terminates and computes the greedy matcher |
| Glob.GlobIsMatches | crates/pbsgui-ad-engine/src/matchspec.rs:49-73 | on a text without a star the greedy matcher is exactly recursive wildcard matching |
| Glob.StarInTextFails | crates/pbsgui-ad-engine/src/matchspec.rs:53-56 | for every text with a star, a pattern that matches and that the matcher rejects |
| Glob.ExactlyStarFreeTexts | crates/pbsgui-ad-engine/src/matchspec.rs:49-73 | the matcher is right about every pattern if and only if the text holds no star |
| ExpandEnv.Expand | crates/pbsgui-ad-engine/src/matchspec.rs:10-38 | the scanning loop replaces exactly the known names among the path's pieces |
| ExpandEnv.PiecesAreThePath | crates/pbsgui-ad-engine/src/matchspec.rs:10-38 | the pieces written out are the path itself |
| ExpandEnv.PiecesWellFormed | crates/pbsgui-ad-engine/src/matchspec.rs:13-29 | references are nonempty names without a percent sign and text holds none |
| ExpandEnv.UnknownLeftAsWritten | crates/pbsgui-ad-engine/src/matchspec.rs:20-26 | a path without known names is left as written, whatever percent signs it holds |
| ExpandEnv.KnownIsReplaced | crates/pbsgui-ad-engine/src/matchspec.rs:17-29 | a known name that opens the path is replaced by its value, and the rest expanded |
| ExpandEnv.AgreeExactly | crates/pbsgui-ad-engine/src/matchspec.rs:10-38 | with values that hold no percent sign, expansion is what ending at the first lone percent sign gives if and only if no known name is referred to after it |
| ExpandEnv.AgreeUnderAll | crates/pbsgui-ad-engine/src/matchspec.rs:30-34 | that holds of a path under every environment if and only if nothing after its first lone percent sign is a reference |
| ExpandEnv.AgreeOnAll | crates/pbsgui-ad-engine/src/matchspec.rs:30-34 | and under an environment of every path if and only if each known name's value is that name between percent signs |
| ExpandEnv.DoubledPercent | crates/pbsgui-ad-engine/src/matchspec.rs:30-34 | a doubled percent sign before a reference makes the difference unless the value is the reference itself: the inputs that show it |
| ExpandEnv.ScanGoesOn | crates/pbsgui-ad-engine/src/matchspec.rs:30-34 | after a doubled percent sign the second one is read as before |
| Repository.Write | crates/pbs-client/src/repository.rs:141-159 | the formatter's writes in sequence give the printed form |
| Repository.ParseOfWellFormed | crates/pbs-client/src/repository.rs:54-159 | printing any well-formed repository and parsing it gives it back |
| Repository.ParsedIsWellFormed | crates/pbs-client/src/repository.rs:54-139 | everything accepted is well formed: host without colon or properly bracketed, no at sign after the last, slash only before a namespace or last |
| Repository.NamedExactlyWhenWellFormed | crates/pbs-client/src/repository.rs:54-139 | some string names a repository if and only if it is well formed |
| Repository.ParseOfDisplay | crates/pbs-client/src/repository.rs:54-159 | for every accepted string, printing and parsing again gives the same repository; without a port the print is the trimmed input |
| Jobs.Sanitize | crates/pbsgui-engine/src/backup.rs:1275-1286 | a slug of the same length over lower-case letters, digits, dot, underscore and dash |
| Jobs.CollectWrites | crates/pbsgui-engine/src/backup.rs:1203-1229 | the loop collects a job's groups: one for files, a full and with point-in-time a log group per database |
| Jobs.FindInside | crates/pbsgui-engine/src/backup.rs:1243-1251 | the scan with its map finds a repeated group if there is one, and names its two uses |
| Jobs.FindAmong | crates/pbsgui-engine/src/backup.rs:1253-1270 | the scan of other jobs on the same server finds a shared group if there is one |
| Jobs.ValidateGroups | crates/pbsgui-engine/src/backup.rs:1236-1272 | accepts a job if and only if none of its groups collide; a reported collision is really there |
| Jobs.GroupsStayIsolated | crates/pbsgui-engine/src/handler.rs:47-61 | over any requests handled one at a time all groups on one server stay pairwise distinct, within and across jobs |
| Jobs.RacingSaves | crates/pbsgui-engine/src/handler.rs:47-55 | two saves validated against the same list keep isolation if and only if they are one job or do not collide |
| JobRace.StoreExactly | crates/pbsgui-engine/src/handler.rs:47-55 | storing an accepted job keeps isolation if and only if nothing stored since its validation, and still there, collides with it |
| JobRace.IsolatedExactlyWithoutRace | crates/pbsgui-engine/src/handler.rs:47-61 | over any interleaving of validations, stores, deletions and recorded runs, isolation holds all along if and only if no job was stored over such a one |
| Jobs.SlugsCollide | crates/pbsgui-engine/src/backup.rs:1230-1235 | different names share a group by slugging and by the log suffix |
| JobStore.Store.constructor | crates/pbsgui-engine/src/jobstore.rs:26-33 | the loaded list, the file as it is, read-only if it could not be read |
| JobStore.Store.Persist | crates/pbsgui-engine/src/jobstore.rs:94-104 | the file becomes the list exactly when writing is allowed and succeeds |
| JobStore.Store.SaveJob | crates/pbsgui-engine/src/jobstore.rs:63-73 | replaces the job with that id or appends it, then persists; refused and without effect when read-only |
| JobStore.Store.Delete | crates/pbsgui-engine/src/jobstore.rs:76-80 | removes every job with that id and keeps the order of the rest, then persists |
| JobStore.Store.RecordRun | crates/pbsgui-engine/src/jobstore.rs:83-92 | changes the last run and status of that job only, then persists |
| JobStore.Store.HandleSave | crates/pbsgui-engine/src/handler.rs:47-55 | a save request keeps a collision-free store collision-free, and an accepted job is stored and admissible |
| JobStore.RunInv | crates/pbsgui-engine/src/jobstore.rs:42-104 | over all interleavings the file is a past state of the list, newer changes are accounted for, ids are unique |
| JobStore.DiskLagsOnlyBehindCallers | crates/pbsgui-engine/src/jobstore.rs:63-104 | if file and list differ, some caller has yet to persist a newer change or was told its write failed |
| JobStore.AcknowledgedIsOnDisk | crates/pbsgui-engine/src/jobstore.rs:94-104 | an acknowledged change is on disk or superseded there by a later state; ids are unique in both |
| JobStore.DiskNeverGoesBack | crates/pbsgui-engine/src/jobstore.rs:94-104 | no later step puts an older state on disk |
| JobStore.ReadOnlyNeverChanges | crates/pbsgui-engine/src/jobstore.rs:40-47 | a store whose file could not be read never changes list or file |

## Left out

- Cryptography, compression and chunk boundary selection are abstract functions; the key file format is not modelled.
- TLS, HTTP/2, named pipes, SQL queries and the VDI device loop are environment steps.
- Serializing a fixed index on the client, which no backup does: only its layout and its parser are modelled.
- Catalog and manifest contents, and snapshot browsing.
- The restore direction of the relay: its sender ends every stream as good, so it makes no truncation promise.
- The agent's reconnect loop and its map of running sessions.
- File and folder jobs beyond their snapshot groups; change detection; folder destinations.
- Retention, metrics, notifications, stall alerts, progress messages and the user interface.
- Failed writes of the timer state, panicking tasks, and an engine stopped in the middle of a run.
- The progress map kept beside the claims of running jobs: only one run per job at a time is modelled.
- Differential backups and the plans without logs, beyond when they are due and what is decided for a database.
- The restore window shown to the user.
- Unicode case folding before wildcard matching.
- The PBS server: the repository holds only its client, so its chunk store and index writer are a small model here.
